/**
 * get_paper_extracts.py: the request for a batch of paper ids and the
 * post-processing of the reply: grouping the elements by paper, splitting
 * each group into claims and evidence, and the capped, truncated samples.
 */
module PaperExtracts {
  import opened Wrappers
  import opened Json

  /**
   * One extracted element. `paperId` is None when the key is absent or null
   * (the `.get` gives None either way); `kind` is the `type` value, None when null.
   * `evidenceDataInvalid`: `evidence_data` holds a value that is not an object
   * (null, say), so reading `points_to` from it raises.
   */
  datatype Element = Element(paperId: Option<string>, kind: Option<string>, textRephrased: JsonText, textVerbatim: JsonText,
                             evidenceDataInvalid: bool)

  /**
   * One entry of data.papers. `id` is None when `paper['id']` holds null: the
   * paper is then shown the group of elements that have no paper id.
   * `metadataInvalid`: `metadata` holds a value that is not an object (null,
   * say), so `.get` on it raises; `bboxesUnsized`: `bboxes` holds a value
   * `len()` rejects (null, say).
   */
  datatype Paper = Paper(id: Option<string>, metadataInvalid: bool, bboxesUnsized: bool)

  /**
   * The parsed reply. `dataInvalid`: the reply or its `data` is not an object
   * (null, say), so `.get` on it raises. `papers` and `elements` are [] when
   * absent or null (a null `papers` is falsy like []), except that
   * `elementsNull` records a null `elements`, which the grouping loop cannot
   * iterate. `statsInvalid`: `stats` is not an object, so `.get` on it raises.
   */
  datatype ExtractsBody = ExtractsBody(dataInvalid: bool, papers: seq<Paper>, elementsNull: bool, elements: seq<Element>,
                                       statsInvalid: bool)

  /** The POST: endpoint, bearer header and the JSON body {"paper_ids": ids}. */
  datatype ExtractsRequest = ExtractsRequest(url: string, authorization: string, paperIds: seq<string>)

  const SampleLimit: nat := 3
  const TextLimit: nat := 100

  /**
   * The request main sends: every command-line argument after the script
   * name is a paper id, kept in order and with duplicates (main has already
   * stopped with a usage message when there is none).
   */
  function RequestFor(apiUrl: string, token: string, argv: seq<string>): (r: ExtractsRequest)
    requires |argv| >= 2
    ensures |r.paperIds| == |argv| - 1 && r.paperIds != []
    ensures forall k :: 0 <= k < |r.paperIds| ==> r.paperIds[k] == argv[k + 1]
    ensures multiset(r.paperIds) == multiset(argv) - multiset{argv[0]}
    ensures r.url == apiUrl + "/api/v1/papers/extracts" && r.authorization == "Bearer " + token
  {
    assert argv == [argv[0]] + argv[1..];
    ExtractsRequest(apiUrl + "/api/v1/papers/extracts", "Bearer " + token, argv[1..])
  }

  // ---------------------------------------------------------------------------
  // Order-preserving selection, used for the groups and for claims/evidence.

  datatype Criterion = OfPaper(id: Option<string>) | OfKind(kind: string)

  predicate Matches(c: Criterion, e: Element) {
    match c
    case OfPaper(id) => e.paperId == id
    case OfKind(k) => e.kind == Some(k)
  }

  /** The elements that match, in their original order. */
  function Select(es: seq<Element>, c: Criterion): (r: seq<Element>)
    ensures |r| <= |es|
  {
    if es == [] then []
    else Select(es[..|es| - 1], c) + (if Matches(c, es[|es| - 1]) then [es[|es| - 1]] else [])
  }

  /** Exactly the matching elements are selected; nothing is selected only when nothing matches. */
  lemma {:induction false} SelectMembers(es: seq<Element>, c: Criterion)
    ensures forall e :: e in Select(es, c) <==> e in es && Matches(c, e)
    ensures Select(es, c) == [] <==> forall e :: e in es ==> !Matches(c, e)
  {
    if es != [] {
      var init, last := es[..|es| - 1], es[|es| - 1];
      SelectMembers(init, c);
      assert es == init + [last];
      assert last in es;
    }
  }

  /** Selecting from a sequence one element longer. */
  lemma SelectSnoc(es: seq<Element>, e: Element, c: Criterion)
    ensures Select(es + [e], c) == Select(es, c) + (if Matches(c, e) then [e] else [])
  {
    assert (es + [e])[..|es|] == es;
  }

  /**
   * Selection keeps relative order: selecting from two parts one after the
   * other gives the selection from the first part, then that from the second.
   */
  lemma {:induction false} SelectAppend(a: seq<Element>, b: seq<Element>, c: Criterion)
    ensures Select(a + b, c) == Select(a, c) + Select(b, c)
  {
    if b == [] {
      assert a + b == a;
    } else {
      var init, last := b[..|b| - 1], b[|b| - 1];
      var x := if Matches(c, last) then [last] else [];
      assert b == init + [last];
      assert a + b == (a + init) + [last];
      calc {
        Select(a + b, c);
        { SelectSnoc(a + init, last, c); }
        Select(a + init, c) + x;
        { SelectAppend(a, init, c); }
        (Select(a, c) + Select(init, c)) + x;
        Select(a, c) + (Select(init, c) + x);
        { SelectSnoc(init, last, c); }
        Select(a, c) + Select(b, c);
      }
    }
  }

  // ---------------------------------------------------------------------------
  // Grouping by paper_id (a dict filled in a loop; its keys keep insertion order).

  /** The distinct paper ids of `es`, in order of first appearance. */
  function FirstAppearances(es: seq<Element>): (keys: seq<Option<string>>)
    ensures forall id :: id in keys <==> exists e :: e in es && e.paperId == id
    ensures forall i, j :: 0 <= i < j < |keys| ==> keys[i] != keys[j]
  {
    if es == [] then []
    else
      var init := es[..|es| - 1];
      var last := es[|es| - 1];
      assert es == init + [last];
      var keys := FirstAppearances(init);
      keys + (if last.paperId in keys then [] else [last.paperId])
  }

  /**
   * The keys keep insertion order: an element whose paper id is new adds it
   * at the end, and an element of a paper already seen adds nothing.
   */
  lemma FirstAppearancesSnoc(es: seq<Element>, e: Element)
    ensures e.paperId in FirstAppearances(es) ==> FirstAppearances(es + [e]) == FirstAppearances(es)
    ensures e.paperId !in FirstAppearances(es) ==> FirstAppearances(es + [e]) == FirstAppearances(es) + [e.paperId]
  {
    assert (es + [e])[..|es|] == es;
  }

  /**
   * What the grouping loop leaves behind: the dict's keys in insertion order,
   * and under each key exactly the elements with that paper id, in order.
   */
  ghost predicate IsGrouping(es: seq<Element>, keys: seq<Option<string>>, groups: map<Option<string>, seq<Element>>) {
    && keys == FirstAppearances(es)
    && (forall id :: id in groups <==> id in keys)
    && (forall id :: id in groups ==> groups[id] == Select(es, OfPaper(id)))
  }

  /** The dict after the loop body handles element e: a new key gets [] first, then e is appended. */
  function Insert(groups: map<Option<string>, seq<Element>>, e: Element): map<Option<string>, seq<Element>> {
    var g := if e.paperId in groups then groups else groups[e.paperId := []];
    g[e.paperId := g[e.paperId] + [e]]
  }

  function InsertKey(keys: seq<Option<string>>, groups: map<Option<string>, seq<Element>>, e: Element): seq<Option<string>> {
    if e.paperId in groups then keys else keys + [e.paperId]
  }

  /** The keys and dict the grouping loop has built after the elements `es`. */
  function Grouped(es: seq<Element>): (seq<Option<string>>, map<Option<string>, seq<Element>>) {
    if es == [] then ([], map[])
    else
      var (keys, groups) := Grouped(es[..|es| - 1]);
      (InsertKey(keys, groups, es[|es| - 1]), Insert(groups, es[|es| - 1]))
  }

  /** Inserting one more element keeps the grouping property. */
  lemma GroupingExtends(es: seq<Element>, e: Element, keys: seq<Option<string>>, groups: map<Option<string>, seq<Element>>)
    requires IsGrouping(es, keys, groups)
    ensures IsGrouping(es + [e], InsertKey(keys, groups, e), Insert(groups, e))
  {
    var all := es + [e];
    assert all[..|es|] == es;
    assert FirstAppearances(all) == InsertKey(keys, groups, e);
    forall id | id in Insert(groups, e)
      ensures Insert(groups, e)[id] == Select(all, OfPaper(id))
    {
      SelectSnoc(es, e, OfPaper(id));
      SelectMembers(es, OfPaper(id));
    }
  }

  /** What the loop builds is a grouping: insertion-ordered keys, each with its own elements in order. */
  lemma {:induction false} GroupedIsGrouping(es: seq<Element>)
    ensures IsGrouping(es, Grouped(es).0, Grouped(es).1)
  {
    if es != [] {
      var init := es[..|es| - 1];
      GroupedIsGrouping(init);
      assert es == init + [es[|es| - 1]];
      GroupingExtends(init, es[|es| - 1], Grouped(init).0, Grouped(init).1);
    }
  }

  method GroupByPaper(es: seq<Element>) returns (keys: seq<Option<string>>, groups: map<Option<string>, seq<Element>>)
    ensures IsGrouping(es, keys, groups)
  {
    keys, groups := [], map[];
    var i := 0;
    while i < |es|
      invariant 0 <= i <= |es|
      invariant (keys, groups) == Grouped(es[..i])
    {
      var e := es[i];
      assert es[..i + 1][..i] == es[..i];
      var pid := e.paperId;
      if pid !in groups {
        groups := groups[pid := []];
        keys := keys + [pid];
      }
      groups := groups[pid := groups[pid] + [e]];
      i := i + 1;
    }
    assert es[..|es|] == es;
    GroupedIsGrouping(es);
  }

  /** The dict's `.get(paper_id, [])`: a paper with no elements gets an empty list. */
  function GroupFor(groups: map<Option<string>, seq<Element>>, id: Option<string>): seq<Element> {
    if id in groups then groups[id] else []
  }

  /** Looking a paper up in the grouping gives exactly that paper's elements, in order. */
  lemma LookupSelects(es: seq<Element>, keys: seq<Option<string>>, groups: map<Option<string>, seq<Element>>, id: Option<string>)
    requires IsGrouping(es, keys, groups)
    ensures GroupFor(groups, id) == Select(es, OfPaper(id))
  {
    SelectMembers(es, OfPaper(id));
  }

  /** The sum of the sizes of the groups listed in `keys`. */
  function GroupSizes(es: seq<Element>, keys: seq<Option<string>>): nat {
    if keys == [] then 0
    else GroupSizes(es, keys[..|keys| - 1]) + |Select(es, OfPaper(keys[|keys| - 1]))|
  }

  function Occurrences(keys: seq<Option<string>>, id: Option<string>): nat {
    if keys == [] then 0
    else Occurrences(keys[..|keys| - 1], id) + (if keys[|keys| - 1] == id then 1 else 0)
  }

  lemma {:induction false} GroupSizesSnoc(es: seq<Element>, e: Element, keys: seq<Option<string>>)
    ensures GroupSizes(es + [e], keys) == GroupSizes(es, keys) + Occurrences(keys, e.paperId)
  {
    if keys != [] {
      GroupSizesSnoc(es, e, keys[..|keys| - 1]);
      assert (es + [e])[..|es|] == es;
    }
  }

  lemma {:induction false} OccursOnce(keys: seq<Option<string>>, id: Option<string>)
    requires forall i, j :: 0 <= i < j < |keys| ==> keys[i] != keys[j]
    requires id in keys
    ensures Occurrences(keys, id) == 1
  {
    var init := keys[..|keys| - 1];
    if keys[|keys| - 1] == id {
      assert id !in init;
      OccursNever(init, id);
    } else {
      assert id in init by {
        var i :| 0 <= i < |keys| && keys[i] == id;
        assert init[i] == id;
      }
      OccursOnce(init, id);
    }
  }

  lemma {:induction false} OccursNever(keys: seq<Option<string>>, id: Option<string>)
    requires id !in keys
    ensures Occurrences(keys, id) == 0
  {
    if keys != [] {
      var init := keys[..|keys| - 1];
      assert forall x :: x in init ==> x in keys;
      OccursNever(init, id);
    }
  }

  /** Group sizes over distinct keys that cover every paper id add up to the element count. */
  lemma {:induction false} GroupSizesCover(es: seq<Element>, keys: seq<Option<string>>)
    requires forall i, j :: 0 <= i < j < |keys| ==> keys[i] != keys[j]
    requires forall e :: e in es ==> e.paperId in keys
    ensures GroupSizes(es, keys) == |es|
  {
    if es == [] {
      ZeroSizes(keys);
    } else {
      var init := es[..|es| - 1];
      var last := es[|es| - 1];
      assert es == init + [last];
      GroupSizesCover(init, keys);
      GroupSizesSnoc(init, last, keys);
      OccursOnce(keys, last.paperId);
    }
  }

  lemma {:induction false} ZeroSizes(keys: seq<Option<string>>)
    ensures GroupSizes([], keys) == 0
  {
    if keys != [] {
      ZeroSizes(keys[..|keys| - 1]);
    }
  }

  /** Every element lands in exactly one group: the group sizes add up to len(all_elements). */
  lemma GroupsPartition(es: seq<Element>, keys: seq<Option<string>>, groups: map<Option<string>, seq<Element>>)
    requires IsGrouping(es, keys, groups)
    ensures GroupSizes(es, keys) == |es|
    ensures forall e :: e in es ==> e.paperId in groups && e in groups[e.paperId]
  {
    GroupSizesCover(es, keys);
    forall e | e in es
      ensures e.paperId in groups && e in groups[e.paperId]
    {
      SelectMembers(es, OfPaper(e.paperId));
    }
  }

  // ---------------------------------------------------------------------------
  // print_paper_summary, as the values it shows.

  /** `text_rephrased`, else `text_verbatim`, else ""; None when the value found is null (len() then raises). */
  function SampleText(e: Element): (r: Option<string>)
    ensures e.textRephrased.Text? ==> r == Some(e.textRephrased.s)
    ensures e.textRephrased.Absent? && e.textVerbatim.Text? ==> r == Some(e.textVerbatim.s)
    ensures e.textRephrased.Absent? && e.textVerbatim.Absent? ==> r == Some("")
    ensures r.None? <==> e.textRephrased.Null? || (e.textRephrased.Absent? && e.textVerbatim.Null?)
  {
    match e.textRephrased
    case Text(s) => Some(s)
    case Null => None
    case Absent =>
      match e.textVerbatim
      case Text(s) => Some(s)
      case Null => None
      case Absent => Some("")
  }

  /** A text of more than 100 characters becomes its first 100 followed by "...". */
  function Truncate(text: string): (r: string)
    ensures |text| <= TextLimit ==> r == text
    ensures |text| > TextLimit ==> |r| == TextLimit + 3 && r[..TextLimit] == text[..TextLimit] && r[TextLimit..] == "..."
    ensures |r| <= TextLimit + 3
  {
    if |text| > TextLimit then text[..TextLimit] + "..." else text
  }

  /** `items[:3]`: the first three, or all of them when there are fewer. */
  function Samples(items: seq<Element>): seq<Element> {
    if |items| <= SampleLimit then items else items[..SampleLimit]
  }

  /** The samples are the first items, at most three of them, and none only when there are no items. */
  lemma SamplesPrefix(items: seq<Element>)
    ensures |Samples(items)| <= SampleLimit && |Samples(items)| <= |items|
    ensures Samples(items) == items[..|Samples(items)|]
    ensures Samples(items) == [] <==> items == []
  {
  }

  /** The shown texts of `items`, in order; None as soon as one of them is null. */
  function Texts(items: seq<Element>): (r: Option<seq<string>>)
    ensures r.Some? ==> |r.value| == |items|
  {
    if items == [] then Some([])
    else
      match Texts(items[..|items| - 1])
      case None => None
      case Some(ts) =>
        match SampleText(items[|items| - 1])
        case None => None
        case Some(t) => Some(ts + [Truncate(t)])
  }

  /** Each shown text is the truncated sample text of its item; a null text anywhere gives None. */
  lemma {:induction false} TextsShown(items: seq<Element>)
    ensures Texts(items).Some? ==>
              forall k :: 0 <= k < |items| ==> SampleText(items[k]).Some? && Texts(items).value[k] == Truncate(SampleText(items[k]).value)
    ensures Texts(items).None? <==> exists k :: 0 <= k < |items| && SampleText(items[k]).None?
  {
    if items != [] {
      var init := items[..|items| - 1];
      TextsShown(init);
      assert forall k :: 0 <= k < |init| ==> init[k] == items[k];
      if Texts(init).None? {
        var k :| 0 <= k < |init| && SampleText(init[k]).None?;
        assert SampleText(items[k]).None?;
      }
    }
  }

  /**
   * What the summary of one paper shows: the claim and evidence counts and up
   * to three truncated sample texts of each; an empty sample list is the
   * "may still be processing" notice. None: a null sample text raised.
   */
  datatype PaperSummary = PaperSummary(id: Option<string>, claims: nat, evidence: nat, sampleClaims: seq<string>, sampleEvidence: seq<string>)

  /** The sampled evidence items whose `evidence_data` can be read. */
  predicate EvidenceDataReadable(items: seq<Element>) {
    forall e :: e in items ==> !e.evidenceDataInvalid
  }

  /**
   * print_paper_summary: the metadata and bounding-box reads come first, then
   * the claim samples, then the evidence samples with their `points_to`.
   */
  function Summarise(paper: Paper, elements: seq<Element>): Option<PaperSummary> {
    if paper.metadataInvalid || paper.bboxesUnsized then None
    else
    var claims := Select(elements, OfKind("claim"));
    var evidence := Select(elements, OfKind("evidence"));
    match Texts(Samples(claims))
    case None => None
    case Some(claimTexts) =>
      match Texts(Samples(evidence))
      case None => None
      case Some(evidenceTexts) =>
        if !EvidenceDataReadable(Samples(evidence)) then None
        else Some(PaperSummary(paper.id, |claims|, |evidence|, claimTexts, evidenceTexts))
  }

  /**
   * The summary counts every claim and every piece of evidence, shows at most
   * three samples of each, shows the "still processing" notice exactly when a
   * count is zero, and fails exactly when the paper's metadata or bounding
   * boxes cannot be read, a sample text shown is null, or a sampled piece of
   * evidence has unreadable evidence_data.
   */
  lemma SummariseShows(paper: Paper, elements: seq<Element>)
    ensures var r := Summarise(paper, elements);
            && (r.Some? ==> r.value.id == paper.id)
            && (r.Some? ==> r.value.claims == |Select(elements, OfKind("claim"))|)
            && (r.Some? ==> r.value.evidence == |Select(elements, OfKind("evidence"))|)
            && (r.Some? ==> |r.value.sampleClaims| <= SampleLimit && |r.value.sampleEvidence| <= SampleLimit)
            && (r.Some? ==> Some(r.value.sampleClaims) == Texts(Samples(Select(elements, OfKind("claim")))))
            && (r.Some? ==> Some(r.value.sampleEvidence) == Texts(Samples(Select(elements, OfKind("evidence")))))
            && (r.Some? ==> (r.value.sampleClaims == [] <==> r.value.claims == 0))
            && (r.Some? ==> (r.value.sampleEvidence == [] <==> r.value.evidence == 0))
            && (r.None? <==> paper.metadataInvalid || paper.bboxesUnsized
                             || Texts(Samples(Select(elements, OfKind("claim")))).None?
                             || Texts(Samples(Select(elements, OfKind("evidence")))).None?
                             || !EvidenceDataReadable(Samples(Select(elements, OfKind("evidence")))))
  {
    SamplesPrefix(Select(elements, OfKind("claim")));
    SamplesPrefix(Select(elements, OfKind("evidence")));
  }

  /** Claims and evidence are disjoint; any other type is in neither. */
  lemma ClaimsAndEvidenceApart(elements: seq<Element>, e: Element)
    ensures !(e in Select(elements, OfKind("claim")) && e in Select(elements, OfKind("evidence")))
    ensures e in elements && e.kind != Some("claim") && e.kind != Some("evidence") ==>
              e !in Select(elements, OfKind("claim")) && e !in Select(elements, OfKind("evidence"))
  {
    SelectMembers(elements, OfKind("claim"));
    SelectMembers(elements, OfKind("evidence"));
  }

  /** What main shows for one paper: the summary of the elements carrying its id. */
  function Expected(paper: Paper, elements: seq<Element>): Option<PaperSummary> {
    Summarise(paper, Select(elements, OfPaper(paper.id)))
  }

  /**
   * What main's display step shows: the summaries printed, in order, and
   * whether it then raised (the handler catches it, so the summaries printed
   * before the raise stay on screen).
   */
  datatype Display = Display(shown: seq<PaperSummary>, raised: bool)

  /**
   * main's display step. An unreadable `data` raises at once; with no papers
   * nothing is grouped; otherwise an unreadable `stats` or a null `elements`
   * raises before any paper is shown, and else the elements are grouped once
   * and each paper is summarised, in order, from its own group, a summary
   * that raises ending the display after the ones already shown.
   */
  method ShowResults(body: ExtractsBody) returns (d: Display)
    ensures body.dataInvalid ==> d == Display([], true)
    ensures !body.dataInvalid && body.papers == [] ==> d == Display([], false)
    ensures !body.dataInvalid && body.papers != [] && (body.statsInvalid || body.elementsNull) ==> d == Display([], true)
    ensures !body.dataInvalid && body.papers != [] && !body.statsInvalid && !body.elementsNull
            ==> d == ShownAll(body.papers, body.elements)
  {
    if body.dataInvalid {
      return Display([], true);
    }
    if body.papers == [] {
      return Display([], false);
    }
    if body.statsInvalid || body.elementsNull {
      return Display([], true);
    }
    var keys, groups := GroupByPaper(body.elements);
    forall id ensures GroupFor(groups, id) == Select(body.elements, OfPaper(id)) {
      LookupSelects(body.elements, keys, groups, id);
    }
    d := SummariseEach(body.papers, body.elements, groups);
  }

  /** The values before the first missing one, and whether a missing one was met. */
  function Leading(os: seq<Option<PaperSummary>>): Display {
    if os == [] then Display([], false)
    else
      var d := Leading(os[..|os| - 1]);
      if d.raised then d
      else if os[|os| - 1].None? then Display(d.shown, true)
      else Display(d.shown + [os[|os| - 1].value], false)
  }

  /**
   * Leading keeps the values before the first missing one, each at its
   * position; it raises exactly when some value is missing, and then the
   * first missing value sits right after those kept; otherwise it keeps all.
   */
  lemma {:induction false} LeadingPrefix(os: seq<Option<PaperSummary>>)
    ensures |Leading(os).shown| <= |os|
    ensures forall j :: 0 <= j < |Leading(os).shown| ==> Some(Leading(os).shown[j]) == os[j]
    ensures Leading(os).raised <==> exists j :: 0 <= j < |os| && os[j].None?
    ensures Leading(os).raised ==> |Leading(os).shown| < |os| && os[|Leading(os).shown|].None?
    ensures !Leading(os).raised ==> |Leading(os).shown| == |os|
  {
    if os != [] {
      var init := os[..|os| - 1];
      LeadingPrefix(init);
      assert forall j :: 0 <= j < |init| ==> init[j] == os[j];
      if Leading(init).raised {
        var j :| 0 <= j < |init| && init[j].None?;
        assert os[j].None?;
      }
    }
  }

  /** Taking one more value of `os`. */
  lemma LeadingStep(os: seq<Option<PaperSummary>>, j: nat)
    requires j < |os|
    ensures Leading(os[..j + 1]) ==
              if Leading(os[..j]).raised then Leading(os[..j])
              else if os[j].None? then Display(Leading(os[..j]).shown, true)
              else Display(Leading(os[..j]).shown + [os[j].value], false)
  {
    assert os[..j + 1][..j] == os[..j];
  }

  /** Once a missing value is met, later values change nothing. */
  lemma {:induction false} LeadingStops(os: seq<Option<PaperSummary>>, j: nat)
    requires j <= |os| && Leading(os[..j]).raised
    ensures Leading(os) == Leading(os[..j])
  {
    if j < |os| {
      var init := os[..|os| - 1];
      assert init[..j] == os[..j];
      LeadingStops(init, j);
    } else {
      assert os[..j] == os;
    }
  }

  /** What the display loop shows for `papers`: the summaries before the first that raises, and whether one did. */
  function ShownAll(papers: seq<Paper>, elements: seq<Element>): Display {
    Leading(seq(|papers|, j requires 0 <= j < |papers| => Expected(papers[j], elements)))
  }

  /**
   * The display shows, for the papers in order, their expected summaries up
   * to the first that raises; it raises exactly when some paper's summary
   * does, and that paper is the one right after those shown.
   */
  lemma ShownAllSummarises(papers: seq<Paper>, elements: seq<Element>)
    ensures var d := ShownAll(papers, elements);
            && |d.shown| <= |papers|
            && (forall j :: 0 <= j < |d.shown| ==> Some(d.shown[j]) == Expected(papers[j], elements))
            && (d.raised <==> exists j :: 0 <= j < |papers| && Expected(papers[j], elements).None?)
            && (d.raised ==> |d.shown| < |papers| && Expected(papers[|d.shown|], elements).None?)
            && (!d.raised ==> |d.shown| == |papers|)
  {
    var os := seq(|papers|, j requires 0 <= j < |papers| => Expected(papers[j], elements));
    LeadingPrefix(os);
  }

  /** One paper of the display loop: its group is looked up (empty when absent) and summarised. */
  method ShowPaper(paper: Paper, elements: seq<Element>, groups: map<Option<string>, seq<Element>>)
    returns (s: Option<PaperSummary>)
    requires forall id :: GroupFor(groups, id) == Select(elements, OfPaper(id))
    ensures s == Expected(paper, elements)
  {
    var group := GroupFor(groups, paper.id);
    s := Summarise(paper, group);
  }

  /** The loop over the papers, each looked up in the grouping. */
  method SummariseEach(papers: seq<Paper>, elements: seq<Element>, groups: map<Option<string>, seq<Element>>)
    returns (d: Display)
    requires forall id :: GroupFor(groups, id) == Select(elements, OfPaper(id))
    ensures d == ShownAll(papers, elements)
  {
    ghost var os := seq(|papers|, q requires 0 <= q < |papers| => Expected(papers[q], elements));
    var shown: seq<PaperSummary> := [];
    var j := 0;
    while j < |papers|
      invariant 0 <= j <= |papers|
      invariant Leading(os[..j]) == Display(shown, false)
    {
      LeadingStep(os, j);
      var s := ShowPaper(papers[j], elements, groups);
      if s.None? {
        LeadingStops(os, j + 1);
        return Display(shown, true);
      }
      shown := shown + [s.value];
      j := j + 1;
    }
    assert os[..j] == os;
    d := Display(shown, false);
  }
}
