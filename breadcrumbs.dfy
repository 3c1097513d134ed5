/**
 * Display strings for a session-replay breadcrumb: its description (first
 * matching rule wins: the largest-contentful-paint delay, the navigation
 * target, the serialised data, the message) and its title (the data's label,
 * or the category split on `.` into a type and an action).
 */
module Breadcrumbs {
  import opened Wrappers
  import opened Strings

  /** A value in a breadcrumb's `data` record, as far as the formatter tells values apart. */
  datatype Value = Str(s: string) | Null | Undefined

  type Data = map<string, Value>

  /** The breadcrumb types the description rule distinguishes; `Other` stands for every other member. */
  datatype BreadcrumbType = Navigation | Default | Other(name: string)

  /**
   * A breadcrumb record; every field but the type may be absent. The
   * timestamp is taken to be a number (its declaration is not part of this
   * model), so its falsy values are absence and `0`.
   */
  datatype Crumb = Crumb(
    kind: BreadcrumbType,
    category: Option<string>,
    message: Option<string>,
    data: Option<Data>,
    timestamp: Option<int>)

  /**
   * The host functions the formatter calls but whose meaning is not part of
   * this model: `JSON.stringify` of the data and `new Date(t).getTime()`.
   */
  datatype Host = Host(jsonStringify: Option<Data> -> string, dateGetTime: int -> int)

  datatype Details = Details(title: Value, description: string)

  const LargestContentfulPaint := "largest-contentful-paint"

  /** JavaScript truthiness of an optional number: present and not zero. */
  predicate Truthy(n: Option<int>) {
    n.Some? && n.value != 0
  }

  /** The crumb's data has an `action` key whose value is the largest-contentful-paint action. */
  predicate IsLcpAction(crumb: Crumb) {
    crumb.data.Some? && "action" in crumb.data.value
    && crumb.data.value["action"] == Str(LargestContentfulPaint)
  }

  /** The timing rule applies: an LCP action with a truthy timestamp and a truthy start. */
  predicate ShowsLcpDelay(crumb: Crumb, startTimestampMs: Option<int>) {
    IsLcpAction(crumb) && Truthy(crumb.timestamp) && Truthy(startTimestampMs)
  }

  /** `${data?.to ?? ''}`: the `to` entry as text, or `""` when it is absent, null or undefined. */
  function NavigationTarget(data: Option<Data>): string
  {
    if data.Some? && "to" in data.value && data.value["to"].Str? then data.value["to"].s else ""
  }

  /** getDescription(crumb, startTimestampMs). */
  function Description(crumb: Crumb, startTimestampMs: Option<int>, host: Host): (r: string)
    ensures ShowsLcpDelay(crumb, startTimestampMs) ==>
      |r| > 2 && r[|r| - 2..] == "ms" && CanonicalDecimal(r[..|r| - 2])
    ensures !ShowsLcpDelay(crumb, startTimestampMs) && crumb.kind.Other? ==> r == crumb.message.GetOr("")
  {
    if ShowsLcpDelay(crumb, startTimestampMs) then
      var digits := IntToDecimal(host.dateGetTime(crumb.timestamp.value) - startTimestampMs.value);
      assert (digits + "ms")[..|digits|] == digits;
      digits + "ms"
    else
      match crumb.kind
      case Navigation => NavigationTarget(crumb.data)
      case Default => host.jsonStringify(crumb.data)
      case Other(_) => if crumb.message.Some? && crumb.message.value != "" then crumb.message.value else ""
  }

  /** `crumb.category?.split('.') || []`. */
  function CategoryPieces(category: Option<string>): seq<string>
  {
    if category.Some? then Split(category.value, '.') else []
  }

  /** `${type === 'ui' ? 'User' : type}`, where a missing type renders as `undefined`. */
  function DisplayType(pieces: seq<string>): string
  {
    if |pieces| == 0 then "undefined"
    else if pieces[0] == "ui" then "User"
    else pieces[0]
  }

  /** `${action || ''}`: the second piece, or `""`. */
  function DisplayAction(pieces: seq<string>): string
  {
    if |pieces| >= 2 then pieces[1] else ""
  }

  /** getTitle(crumb); a label is returned as it is, whatever its value. */
  function Title(crumb: Crumb): (r: Value)
    ensures crumb.data.Some? && "label" in crumb.data.value ==> r == crumb.data.value["label"]
    ensures !(crumb.data.Some? && "label" in crumb.data.value) ==> r.Str? && ' ' in r.s
  {
    var pieces := CategoryPieces(crumb.category);
    if crumb.data.Some? && "label" in crumb.data.value then crumb.data.value["label"]
    else Str(DisplayType(pieces) + " " + DisplayAction(pieces))
  }

  /** getDetails(crumb, startTimestampMs): the title and the description of the same inputs. */
  function GetDetails(crumb: Crumb, startTimestampMs: Option<int>, host: Host): (r: Details)
    ensures r.title == Title(crumb)
    ensures r.description == Description(crumb, startTimestampMs, host)
  {
    Details(Title(crumb), Description(crumb, startTimestampMs, host))
  }

  // ---------------------------------------------------------------------------
  // description
  // ---------------------------------------------------------------------------

  /**
   * An LCP crumb with both timestamps describes itself as a number in
   * canonical form followed by `ms`, and that number reads back as the delay
   * from the start.
   */
  lemma LcpDescriptionIsDelay(crumb: Crumb, startTimestampMs: Option<int>, host: Host)
    requires ShowsLcpDelay(crumb, startTimestampMs)
    ensures var r := Description(crumb, startTimestampMs, host);
      |r| > 2 && r[|r| - 2..] == "ms" && CanonicalDecimal(r[..|r| - 2])
      && ParseDecimal(r[..|r| - 2])
         == Some(host.dateGetTime(crumb.timestamp.value) - startTimestampMs.value)
  {
    var delay := host.dateGetTime(crumb.timestamp.value) - startTimestampMs.value;
    var digits := IntToDecimal(delay);
    var r := Description(crumb, startTimestampMs, host);
    assert r == digits + "ms";
    assert r[..|r| - 2] == digits;
    DecimalRoundTrip(delay);
  }

  /** Two LCP crumbs with both timestamps describe themselves alike exactly when their delays agree. */
  lemma LcpDescriptionsDistinguishDelays(c1: Crumb, s1: Option<int>, c2: Crumb, s2: Option<int>, host: Host)
    requires ShowsLcpDelay(c1, s1) && ShowsLcpDelay(c2, s2)
    ensures Description(c1, s1, host) == Description(c2, s2, host)
        <==> host.dateGetTime(c1.timestamp.value) - s1.value == host.dateGetTime(c2.timestamp.value) - s2.value
  {
    var d1 := host.dateGetTime(c1.timestamp.value) - s1.value;
    var d2 := host.dateGetTime(c2.timestamp.value) - s2.value;
    if Description(c1, s1, host) == Description(c2, s2, host) {
      var r := Description(c1, s1, host);
      assert r[..|r| - 2] == IntToDecimal(d1);
      assert r[..|r| - 2] == IntToDecimal(d2);
      DecimalInjective(d1, d2);
    }
  }

  /**
   * An LCP crumb missing either timestamp (absent or zero) is described as the
   * same crumb without any timing information is, that is, by its type.
   */
  lemma LcpWithoutTimestampsFallsThrough(crumb: Crumb, startTimestampMs: Option<int>, host: Host)
    requires IsLcpAction(crumb)
    requires !Truthy(crumb.timestamp) || !Truthy(startTimestampMs)
    ensures Description(crumb, startTimestampMs, host) == Description(crumb.(timestamp := None), None, host)
  {
  }

  /**
   * Outside the timing rule the description does not depend on the
   * timestamps or on the clock: only the type, the data and the message matter.
   */
  lemma DescriptionIgnoresTimeOutsideLcp(crumb: Crumb, s1: Option<int>, s2: Option<int>,
                                         timestamp: Option<int>, host1: Host, host2: Host)
    requires !IsLcpAction(crumb)
    requires host1.jsonStringify == host2.jsonStringify
    ensures Description(crumb, s1, host1) == Description(crumb.(timestamp := timestamp), s2, host2)
  {
  }

  /** Navigation crumbs outside the timing rule are described by their `to` entry, or `""`. */
  lemma NavigationDescription(crumb: Crumb, startTimestampMs: Option<int>, host: Host)
    requires crumb.kind == Navigation && !ShowsLcpDelay(crumb, startTimestampMs)
    ensures var r := Description(crumb, startTimestampMs, host);
      if crumb.data.Some? && "to" in crumb.data.value && crumb.data.value["to"].Str?
      then r == crumb.data.value["to"].s
      else r == ""
  {
  }

  /** Default crumbs outside the timing rule are described by their serialised data. */
  lemma DefaultDescription(crumb: Crumb, startTimestampMs: Option<int>, host: Host)
    requires crumb.kind == Default && !ShowsLcpDelay(crumb, startTimestampMs)
    ensures Description(crumb, startTimestampMs, host) == host.jsonStringify(crumb.data)
  {
  }

  /** Every other crumb outside the timing rule is described by its message, or `""` without one. */
  lemma MessageDescription(crumb: Crumb, startTimestampMs: Option<int>, host: Host)
    requires crumb.kind.Other? && !ShowsLcpDelay(crumb, startTimestampMs)
    ensures Description(crumb, startTimestampMs, host) == crumb.message.GetOr("")
  {
  }

  // ---------------------------------------------------------------------------
  // title
  // ---------------------------------------------------------------------------

  /** A `label` entry is the title, whatever the category is. */
  lemma LabelIsTitle(crumb: Crumb, otherCategory: Option<string>)
    requires crumb.data.Some? && "label" in crumb.data.value
    ensures Title(crumb) == crumb.data.value["label"]
    ensures Title(crumb.(category := otherCategory)) == Title(crumb)
  {
  }

  function DisplayName(t: string): string {
    if t == "ui" then "User" else t
  }

  /** Without a label, the category `t.a` titles the crumb `T a`, with `ui` shown as `User`. */
  lemma TitleOfTypeAndAction(crumb: Crumb, t: string, a: string)
    requires crumb.data.None? || "label" !in crumb.data.value
    requires '.' !in t && '.' !in a
    requires crumb.category == Some(t + "." + a)
    ensures Title(crumb) == Str(DisplayName(t) + " " + a)
  {
    assert t + "." + a == t + ['.'] + a;
    SplitAfterPiece(t, a, '.');
    SplitSinglePiece(a, '.');
  }

  /** Pieces of the category after the second one do not show in the title. */
  lemma TitleIgnoresLaterPieces(crumb: Crumb, t: string, a: string, rest: string)
    requires crumb.data.None? || "label" !in crumb.data.value
    requires '.' !in t && '.' !in a
    requires crumb.category == Some(t + "." + a + "." + rest)
    ensures Title(crumb) == Title(crumb.(category := Some(t + "." + a)))
  {
    assert t + "." + a + "." + rest == t + ['.'] + (a + ['.'] + rest);
    SplitAfterPiece(t, a + ['.'] + rest, '.');
    SplitAfterPiece(a, rest, '.');
    TitleOfTypeAndAction(crumb.(category := Some(t + "." + a)), t, a);
  }

  /** A category without a `.` titles the crumb with its type and a trailing space. */
  lemma TitleOfTypeOnly(crumb: Crumb, t: string)
    requires crumb.data.None? || "label" !in crumb.data.value
    requires '.' !in t
    requires crumb.category == Some(t)
    ensures Title(crumb) == Str(DisplayName(t) + " ")
  {
    SplitSinglePiece(t, '.');
  }

  /** Without a category or a label, the type renders as the literal `undefined`. */
  lemma TitleWithoutCategory(crumb: Crumb)
    requires crumb.data.None? || "label" !in crumb.data.value
    requires crumb.category.None?
    ensures Title(crumb) == Str("undefined ")
  {
  }

  // ---------------------------------------------------------------------------
  // worked examples
  // ---------------------------------------------------------------------------

  lemma SplitUiClick()
    ensures Split("ui.click", '.') == ["ui", "click"]
  {
    var ui, click := "ui", "click";
    assert ui + ['.'] + click == "ui.click";
    SplitAfterPiece(ui, click, '.');
    SplitSinglePiece(click, '.');
  }

  /** A click in the UI: `ui.click` is titled `User click`. */
  lemma UiClickTitle(kind: BreadcrumbType)
    ensures Title(Crumb(kind, Some("ui.click"), None, None, None)) == Str("User click")
  {
    SplitUiClick();
    assert CategoryPieces(Some("ui.click")) == ["ui", "click"];
    assert DisplayType(["ui", "click"]) + " " + DisplayAction(["ui", "click"]) == "User click";
  }

  /** An LCP crumb at 5000 with a start of 2000 and the identity clock is described as `3000ms`. */
  lemma LcpExample(kind: BreadcrumbType, json: Option<Data> -> string)
    ensures Description(Crumb(kind, None, None, Some(map["action" := Str(LargestContentfulPaint)]), Some(5000)),
                        Some(2000), Host(json, t => t)) == "3000ms"
  {
    assert NatToDecimal(3000) == "3000" by {
      assert NatToDecimal(3) == "3";
      assert NatToDecimal(30) == "30";
      assert NatToDecimal(300) == "300";
    }
  }
}
