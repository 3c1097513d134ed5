/**
 * The tag-value autocomplete field of the dynamic-sampling rule editor: the
 * accessibility label per condition category, the loader that fills the
 * fetched tag values, the options offered (values of the current selection
 * that were not fetched, then the fetched ones) and the comma encoding of the
 * selection.
 */
module TagValueAutocomplete {
  import opened Wrappers
  import opened Strings

  /** The condition categories the field accepts, and every other inner name (the default branch). */
  datatype Category =
    | EventEnvironment | EventRelease | EventTransaction
    | EventOsName | EventOsVersion | EventDeviceFamily | EventDeviceName | EventCustomTag
    | TraceEnvironment | TraceRelease | TraceTransaction
    | OtherInnerName(name: string)

  // Untranslated messages; translation is not part of this model.
  const ReleaseLabel := "Search or add a release"
  const EnvironmentLabel := "Search or add an environment"
  const TransactionLabel := "Search or add a transaction"
  const OsNameLabel := "Search or add an os name"
  const OsVersionLabel := "Search or add an os version"
  const DeviceFamilyLabel := "Search or add a device family"
  const DeviceNameLabel := "Search or add a device name"
  const CustomTagLabel := "Search or add tag values"
  const UnknownCategoryError := "Unknown dynamic sampling condition inner name"

  /** A label together with the errors reported to the error tracker while choosing it. */
  datatype Labelled = Labelled(text: string, errorReports: seq<string>)

  /** getAriaLabel: a label per category; any other inner name gets `""` and one error report. */
  function AriaLabel(category: Category): (r: Labelled)
    ensures r.text == "" <==> category.OtherInnerName?
    ensures r.errorReports == if category.OtherInnerName? then [UnknownCategoryError] else []
  {
    match category
    case TraceRelease | EventRelease => Labelled(ReleaseLabel, [])
    case TraceEnvironment | EventEnvironment => Labelled(EnvironmentLabel, [])
    case TraceTransaction | EventTransaction => Labelled(TransactionLabel, [])
    case EventOsName => Labelled(OsNameLabel, [])
    case EventOsVersion => Labelled(OsVersionLabel, [])
    case EventDeviceFamily => Labelled(DeviceFamilyLabel, [])
    case EventDeviceName => Labelled(DeviceNameLabel, [])
    case EventCustomTag => Labelled(CustomTagLabel, [])
    case OtherInnerName(_) => Labelled("", [UnknownCategoryError])
  }

  /** What a category is about, ignoring whether it matches on the trace or on the event. */
  datatype Subject = Release | Environment | Transaction | OsName | OsVersion | DeviceFamily | DeviceName | CustomTag

  function SubjectOf(category: Category): Subject
    requires !category.OtherInnerName?
  {
    match category
    case TraceRelease | EventRelease => Release
    case TraceEnvironment | EventEnvironment => Environment
    case TraceTransaction | EventTransaction => Transaction
    case EventOsName => OsName
    case EventOsVersion => OsVersion
    case EventDeviceFamily => DeviceFamily
    case EventDeviceName => DeviceName
    case EventCustomTag => CustomTag
  }

  /** The trace and event variants of release, environment and transaction share their label. */
  lemma TraceAndEventShareLabels()
    ensures AriaLabel(TraceRelease) == AriaLabel(EventRelease)
    ensures AriaLabel(TraceEnvironment) == AriaLabel(EventEnvironment)
    ensures AriaLabel(TraceTransaction) == AriaLabel(EventTransaction)
  {
  }

  /** Two known categories get the same label exactly when they are about the same subject. */
  lemma LabelsIdentifySubjects(c1: Category, c2: Category)
    requires !c1.OtherInnerName? && !c2.OtherInnerName?
    ensures AriaLabel(c1).text == AriaLabel(c2).text <==> SubjectOf(c1) == SubjectOf(c2)
  {
  }

  // ---------------------------------------------------------------------------
  // options
  // ---------------------------------------------------------------------------

  datatype Tag = Tag(value: string)

  datatype SelectOption = SelectOption(value: string, caption: string)

  /** `tagValues.some(tagValue => tagValue.value === v)`. */
  predicate Fetched(v: string, tagValues: seq<Tag>) {
    exists j :: 0 <= j < |tagValues| && tagValues[j].value == v
  }

  function Values(tags: seq<Tag>): (vs: seq<string>)
    ensures |vs| == |tags| && forall k :: 0 <= k < |tags| ==> vs[k] == tags[k].value
  {
    seq(|tags|, k requires 0 <= k < |tags| => tags[k].value)
  }

  /** The pieces that are not fetched tag values, in order, each wrapped as a tag. */
  function Unfetched(pieces: seq<string>, tagValues: seq<Tag>): (created: seq<Tag>)
    ensures |created| <= |pieces|
    ensures forall k :: 0 <= k < |created| ==> created[k].value in pieces && !Fetched(created[k].value, tagValues)
  {
    if |pieces| == 0 then []
    else (if Fetched(pieces[0], tagValues) then [] else [Tag(pieces[0])]) + Unfetched(pieces[1..], tagValues)
  }

  /** `createdOptions`: nothing for an absent or empty value, otherwise its unfetched comma-pieces. */
  function CreatedOptions(value: Option<string>, tagValues: seq<Tag>): (created: seq<Tag>)
    ensures value.None? || value.value == "" ==> created == []
    ensures value.Some? ==> forall k :: 0 <= k < |created| ==>
      created[k].value in Split(value.value, ',') && !Fetched(created[k].value, tagValues)
  {
    if value.None? || value.value == "" then [] else Unfetched(Split(value.value, ','), tagValues)
  }

  /** The options offered: the created options, then the fetched tags, each labelled with its value. */
  function Options(value: Option<string>, tagValues: seq<Tag>): (r: seq<SelectOption>)
    ensures var created := CreatedOptions(value, tagValues);
      && |r| == |created| + |tagValues|
      && (forall i :: 0 <= i < |created| ==> r[i].value == created[i].value)
      && (forall j :: 0 <= j < |tagValues| ==> r[|created| + j].value == tagValues[j].value)
    ensures forall i :: 0 <= i < |r| ==> r[i].caption == r[i].value
  {
    var all := CreatedOptions(value, tagValues) + tagValues;
    seq(|all|, i requires 0 <= i < |all| => SelectOption(all[i].value, all[i].value))
  }

  /** `value?.split(',')`: the selected values; an absent value selects nothing. */
  function Selection(value: Option<string>): (selected: Option<seq<string>>)
    ensures selected.Some? <==> value.Some?
    ensures selected.Some? ==> |selected.value| >= 1
    ensures selected.Some? ==> forall i :: 0 <= i < |selected.value| ==> ',' !in selected.value[i]
  {
    if value.None? then None else Some(Split(value.value, ','))
  }

  /** `newValue?.join(',')`: the string passed to `onChange`. */
  function Encode(newValue: Option<seq<string>>): (encoded: Option<string>)
    ensures encoded.Some? <==> newValue.Some?
    ensures newValue.Some? && |newValue.value| >= 1 ==> newValue.value[0] <= encoded.value
    ensures newValue.Some? && |newValue.value| >= 2 ==> ',' in encoded.value
  {
    if newValue.None? then None else Some(Join(newValue.value, ','))
  }

  /** Filtering distributes over concatenation, so the created options keep the pieces' order. */
  lemma {:induction false} UnfetchedAppend(p: seq<string>, q: seq<string>, tagValues: seq<Tag>)
    ensures Unfetched(p + q, tagValues) == Unfetched(p, tagValues) + Unfetched(q, tagValues)
    decreases |p|
  {
    if |p| == 0 {
      assert p + q == q;
    } else {
      assert (p + q)[0] == p[0];
      assert (p + q)[1..] == p[1..] + q;
      UnfetchedAppend(p[1..], q, tagValues);
    }
  }

  /** A piece is created exactly when it occurs among the pieces and is not fetched. */
  lemma {:induction false} UnfetchedMembership(pieces: seq<string>, tagValues: seq<Tag>, x: string)
    ensures x in Values(Unfetched(pieces, tagValues)) <==> x in pieces && !Fetched(x, tagValues)
    decreases |pieces|
  {
    if |pieces| != 0 {
      UnfetchedMembership(pieces[1..], tagValues, x);
      var head := if Fetched(pieces[0], tagValues) then [] else [Tag(pieces[0])];
      var tail := Unfetched(pieces[1..], tagValues);
      ValuesAppend(head, tail);
      assert x in Values(head) <==> x == pieces[0] && !Fetched(x, tagValues);
      assert x in pieces <==> x == pieces[0] || x in pieces[1..];
    }
  }

  lemma ValuesAppend(a: seq<Tag>, b: seq<Tag>)
    ensures Values(a + b) == Values(a) + Values(b)
  {
  }

  /** Duplicates are kept: an unfetched piece is created as often as it occurs, a fetched one never. */
  lemma {:induction false} UnfetchedMultiplicity(pieces: seq<string>, tagValues: seq<Tag>, x: string)
    ensures multiset(Values(Unfetched(pieces, tagValues)))[x]
         == if Fetched(x, tagValues) then 0 else multiset(pieces)[x]
    decreases |pieces|
  {
    if |pieces| != 0 {
      UnfetchedMultiplicity(pieces[1..], tagValues, x);
      var head := if Fetched(pieces[0], tagValues) then [] else [Tag(pieces[0])];
      var tail := Unfetched(pieces[1..], tagValues);
      ValuesAppend(head, tail);
      assert pieces == [pieces[0]] + pieces[1..];
    }
  }

  /** With no value (absent or empty) the options are exactly the fetched tags. */
  lemma NoValueOffersFetchedTags(value: Option<string>, tagValues: seq<Tag>)
    requires value.None? || value.value == ""
    ensures Options(value, tagValues) == seq(|tagValues|, j requires 0 <= j < |tagValues| => SelectOption(tagValues[j].value, tagValues[j].value))
  {
  }

  /**
   * The created options of a non-empty value are its comma-pieces that are
   * not fetched: every such piece, and nothing else.
   */
  lemma CreatedAreUnfetchedPieces(v: string, tagValues: seq<Tag>, x: string)
    requires v != ""
    ensures x in Values(CreatedOptions(Some(v), tagValues)) <==> x in Split(v, ',') && !Fetched(x, tagValues)
  {
    UnfetchedMembership(Split(v, ','), tagValues, x);
  }

  /** No created option repeats a fetched tag value. */
  lemma CreatedNeverFetched(value: Option<string>, tagValues: seq<Tag>)
    ensures var created := CreatedOptions(value, tagValues);
      forall k, j :: 0 <= k < |created| && 0 <= j < |tagValues| ==> created[k].value != tagValues[j].value
  {
  }

  /** Every piece of a non-empty selection is offered as an option. */
  lemma EverySelectedValueIsOffered(v: string, tagValues: seq<Tag>, piece: string)
    requires v != "" && piece in Split(v, ',')
    ensures exists i :: 0 <= i < |Options(Some(v), tagValues)| && Options(Some(v), tagValues)[i].value == piece
  {
    var created := CreatedOptions(Some(v), tagValues);
    var r := Options(Some(v), tagValues);
    if Fetched(piece, tagValues) {
      var j :| 0 <= j < |tagValues| && tagValues[j].value == piece;
      assert r[|created| + j].value == piece;
    } else {
      CreatedAreUnfetchedPieces(v, tagValues, piece);
      var k :| 0 <= k < |created| && Values(created)[k] == piece;
      assert r[k].value == piece;
    }
  }

  /** Every piece of a non-empty selection is offered, all at once. */
  lemma AllSelectedValuesOffered(v: string, tagValues: seq<Tag>)
    requires v != ""
    ensures forall piece :: piece in Split(v, ',') ==>
      exists i :: 0 <= i < |Options(Some(v), tagValues)| && Options(Some(v), tagValues)[i].value == piece
  {
    forall piece | piece in Split(v, ',')
      ensures exists i :: 0 <= i < |Options(Some(v), tagValues)| && Options(Some(v), tagValues)[i].value == piece
    {
      EverySelectedValueIsOffered(v, tagValues, piece);
    }
  }

  /**
   * The empty value is the exception: it creates no option, yet it selects
   * one empty piece, which is offered only when some fetched tag is empty.
   */
  lemma EmptyValueSelectsUnofferedPiece(tagValues: seq<Tag>)
    ensures Selection(Some("")) == Some([""])
    ensures (exists i :: 0 <= i < |Options(Some(""), tagValues)| && Options(Some(""), tagValues)[i].value == "")
        <==> Fetched("", tagValues)
  {
    var r := Options(Some(""), tagValues);
    if exists i :: 0 <= i < |r| && r[i].value == "" {
      var i :| 0 <= i < |r| && r[i].value == "";
      assert tagValues[i].value == "";
    }
    if Fetched("", tagValues) {
      var j :| 0 <= j < |tagValues| && tagValues[j].value == "";
      assert r[j].value == "";
    }
  }

  lemma SplitAbc()
    ensures Split("a,b,c", ',') == ["a", "b", "c"]
  {
    var a, b, c := "a", "b", "c";
    assert "a,b,c" == a + [','] + (b + [','] + c);
    SplitAfterPiece(a, b + [','] + c, ',');
    SplitAfterPiece(b, c, ',');
    SplitSinglePiece(c, ',');
  }

  lemma CreatedAbc()
    ensures CreatedOptions(Some("a,b,c"), [Tag("b")]) == [Tag("a"), Tag("c")]
  {
    var fetched := [Tag("b")];
    SplitAbc();
    assert fetched[0].value == "b";
    assert !Fetched("a", fetched) && !Fetched("c", fetched);
    assert Unfetched(["c"], fetched) == [Tag("c")];
    assert Unfetched(["b", "c"], fetched) == [Tag("c")];
    assert Unfetched(["a", "b", "c"], fetched) == [Tag("a")] + Unfetched(["b", "c"], fetched);
  }

  /** The example of "a,b,c" against a fetched "b": created "a" and "c" come first, then "b". */
  lemma OptionsExample()
    ensures Options(Some("a,b,c"), [Tag("b")])
         == [SelectOption("a", "a"), SelectOption("c", "c"), SelectOption("b", "b")]
  {
    CreatedAbc();
    var r := Options(Some("a,b,c"), [Tag("b")]);
    assert |r| == 3;
  }

  /** Re-emitting an unchanged selection gives back the value it came from, absent or not. */
  lemma SelectionRoundTrip(value: Option<string>)
    ensures Encode(Selection(value)) == value
  {
    if value.Some? {
      JoinSplit(value.value, ',');
    }
  }

  /** A non-empty selection of comma-free values survives encoding and decoding. */
  lemma EncodeRoundTrip(selected: seq<string>)
    requires |selected| >= 1
    requires forall i :: 0 <= i < |selected| ==> ',' !in selected[i]
    ensures Selection(Encode(Some(selected))) == Some(selected)
  {
    SplitJoin(selected, ',');
  }

  /**
   * A created value holding a comma does not survive: it is emitted as it is
   * and read back as two values, which is why the round trip above needs
   * comma-free values.
   */
  lemma CommaInValueSplitsOnReadBack()
    ensures Encode(Some(["a,b"])) == Some("a,b")
    ensures Selection(Encode(Some(["a,b"]))) == Some(["a", "b"])
  {
    var a, b := "a", "b";
    assert Join(["a,b"], ',') == "a,b";
    assert "a,b" == a + [','] + b;
    SplitAfterPiece(a, b, ',');
    SplitSinglePiece(b, ',');
    assert Split("a,b", ',') == [a, b];
  }

  /** A cleared selection is encoded as `""`, which selects one empty piece. */
  lemma ClearedSelectionReadsBackAsEmptyPiece()
    ensures Encode(Some([])) == Some("")
    ensures Selection(Encode(Some([]))) == Some([""])
  {
  }

  // ---------------------------------------------------------------------------
  // the component's state
  // ---------------------------------------------------------------------------

  /** The result of one tag-value fetch. */
  datatype FetchOutcome = Succeeded(response: seq<Tag>) | Failed

  /** The arguments of a tag-value fetch: organisation, tag key, search query, project ids. */
  datatype FetchRequest = FetchRequest(orgSlug: string, tagKey: string, query: Option<string>, projectIds: seq<string>)

  /** One mounted field: its properties, the fetched tag values, and what it reported and requested. */
  class Component {
    const orgSlug: string
    const projectId: string
    const category: Category
    const tagKey: Option<string>
    const value: Option<string>

    var tagValues: seq<Tag>
    /** The errors sent to the error tracker, oldest first. */
    ghost var errorReports: seq<string>
    /** The fetches issued, oldest first. */
    ghost var requests: seq<FetchRequest>

    constructor (orgSlug: string, projectId: string, category: Category, tagKey: Option<string>, value: Option<string>)
      ensures this.orgSlug == orgSlug && this.projectId == projectId && this.category == category
      ensures this.tagKey == tagKey && this.value == value
      ensures tagValues == [] && errorReports == [] && requests == []
    {
      this.orgSlug := orgSlug;
      this.projectId := projectId;
      this.category := category;
      this.tagKey := tagKey;
      this.value := value;
      tagValues := [];
      errorReports := [];
      requests := [];
    }

    /** `!tagKey` is false: a non-empty tag key is present. */
    predicate HasTagKey() {
      tagKey.Some? && tagKey.value != ""
    }

    /**
     * tagValueLoader: without a tag key nothing is fetched and nothing
     * changes; otherwise one fetch is issued, whose response replaces the tag
     * values on success and whose failure leaves them as they were.
     */
    method Load(outcome: FetchOutcome)
      modifies this`tagValues, this`requests
      ensures !HasTagKey() ==> tagValues == old(tagValues) && requests == old(requests)
      ensures HasTagKey() ==> requests == old(requests) + [FetchRequest(orgSlug, tagKey.value, None, [projectId])]
      ensures HasTagKey() && outcome.Succeeded? ==> tagValues == outcome.response
      ensures HasTagKey() && outcome.Failed? ==> tagValues == old(tagValues)
    {
      if !HasTagKey() {
        return;
      }
      requests := requests + [FetchRequest(orgSlug, tagKey.value, None, [projectId])];
      match outcome
      case Succeeded(response) => tagValues := response;
      case Failed =>
    }

    /** getAriaLabel with its report: an unknown category adds exactly one error report. */
    method GetAriaLabel() returns (ariaLabel: string)
      modifies this`errorReports
      ensures ariaLabel == AriaLabel(category).text
      ensures ariaLabel == "" <==> category.OtherInnerName?
      ensures errorReports == old(errorReports) + AriaLabel(category).errorReports
    {
      var labelled := AriaLabel(category);
      if category.OtherInnerName? {
        errorReports := errorReports + [UnknownCategoryError];
      }
      ariaLabel := labelled.text;
    }

    /**
     * The options rendered for the current state: each labelled with its
     * value, and covering every value of a non-empty selection.
     */
    function RenderedOptions(): (r: seq<SelectOption>)
      reads this
      ensures forall i :: 0 <= i < |r| ==> r[i].caption == r[i].value
      ensures value.Some? && value.value != "" ==>
        forall piece :: piece in Split(value.value, ',') ==> exists i :: 0 <= i < |r| && r[i].value == piece
    {
      if value.Some? && value.value != "" then AllSelectedValuesOffered(value.value, tagValues); Options(value, tagValues)
      else Options(value, tagValues)
    }
  }

  /** A failed first fetch leaves a freshly mounted field without suggestions. */
  method FirstFailedFetchOffersNothing(orgSlug: string, projectId: string, category: Category,
                                       tagKey: Option<string>, value: Option<string>)
    returns (tags: seq<Tag>, options: seq<SelectOption>)
    ensures tags == []
    ensures options == Options(value, [])
  {
    var field := new Component(orgSlug, projectId, category, tagKey, value);
    field.Load(Failed);
    tags := field.tagValues;
    options := field.RenderedOptions();
  }

  /** A success then a failure: the tag values are those of the successful fetch. */
  method FailureKeepsLastResponse(orgSlug: string, projectId: string, category: Category,
                                  tagKey: string, value: Option<string>, response: seq<Tag>)
    returns (tags: seq<Tag>)
    ensures tags == if tagKey != "" then response else []
  {
    var field := new Component(orgSlug, projectId, category, Some(tagKey), value);
    field.Load(Succeeded(response));
    field.Load(Failed);
    tags := field.tagValues;
  }
}
