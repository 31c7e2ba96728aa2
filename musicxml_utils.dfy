/** The multi-page merger `join_musicxml_files`: the per-page MusicXML documents
    of a directory become one document.  Parsing is a parameter (`docs` maps a
    file name to its parsed root, a missing name is a file that fails to parse);
    listing the directory is the parameter `listing`. */
module MusicXmlUtils {

  import opened Wrappers
  import opened XmlTree
  import opened Strings

  /** The namespace every element the merger looks up must be in. */
  const Namespace := "http://www.musicxml.org/ns/musicxml"

  /** ElementTree's `{namespace}local` notation for a namespaced tag. */
  function Q(local: string): string {
    "{" + Namespace + "}" + local
  }

  const PartTag := Q("part")
  const PartListTag := Q("part-list")
  const ScorePartTag := Q("score-part")

  /** Why the merge stops before writing anything: `ValueError` for an empty
      selection, a parse error for a file, and `AttributeError` when score-parts
      must go into a part-list the first document lacks. */
  datatype JoinError = NoMusicXmlFiles | Unparsable(name: string) | MissingPartList

  // ---------------------------------------------------------------------------
  // Selecting the input files
  // ---------------------------------------------------------------------------

  predicate IsMusicXmlName(f: string) {
    EndsWith(Lower(f), ".musicxml")
  }

  /** The names of the listing that end in ".musicxml", in any letter case. */
  function Filter(listing: seq<string>): (r: seq<string>)
    ensures forall f :: f in r <==> f in listing && IsMusicXmlName(f)
  {
    if listing == [] then []
    else
      var n := |listing| - 1;
      assert listing == listing[..n] + [listing[n]];
      Filter(listing[..n]) + (if IsMusicXmlName(listing[n]) then [listing[n]] else [])
  }

  /** The filter keeps each matching name as often as it is listed, and drops the others. */
  lemma {:induction false} FilterCounts(listing: seq<string>)
    ensures forall f :: multiset(Filter(listing))[f] == if IsMusicXmlName(f) then multiset(listing)[f] else 0
  {
    if listing != [] {
      var n := |listing| - 1;
      FilterCounts(listing[..n]);
      assert listing == listing[..n] + [listing[n]];
      assert multiset(listing) == multiset(listing[..n]) + multiset{listing[n]};
    }
  }

  /** The pages to join: the listed names that end in ".musicxml" in any letter
      case, in ascending order. */
  function SelectFiles(listing: seq<string>): seq<string> {
    Sort(Filter(listing))
  }

  /** The selection is in ascending order and holds exactly the listed names
      that end in ".musicxml", in any letter case, each as often as listed. */
  lemma SelectFilesExact(listing: seq<string>)
    ensures Sorted(SelectFiles(listing)) && multiset(SelectFiles(listing)) == multiset(Filter(listing))
    ensures forall f :: f in SelectFiles(listing) <==> f in listing && IsMusicXmlName(f)
    ensures forall f :: multiset(SelectFiles(listing))[f] == if IsMusicXmlName(f) then multiset(listing)[f] else 0
  {
    SelectFilesMembers(listing);
    FilterCounts(listing);
  }

  /** A name is selected exactly when it is listed and ends in ".musicxml". */
  lemma SelectFilesMembers(listing: seq<string>)
    ensures forall f :: f in SelectFiles(listing) <==> f in listing && IsMusicXmlName(f)
  {
    var r := SelectFiles(listing);
    assert forall f :: f in r <==> f in multiset(Filter(listing));
  }

  // ---------------------------------------------------------------------------
  // What the merger reads from a document
  // ---------------------------------------------------------------------------

  /** An element's `id` attribute (`get("id")`). */
  function IdOf(e: Element): string
    requires "id" in e.attrs
  {
    e.attrs["id"]
  }

  predicate HasIds(es: seq<Element>) {
    forall k :: 0 <= k < |es| ==> "id" in es[k].attrs
  }

  /** The identifiers of elements that all carry one, in order. */
  function IdsOf(es: seq<Element>): (r: seq<string>)
    requires HasIds(es)
    ensures |r| == |es| && forall k :: 0 <= k < |es| ==> r[k] == IdOf(es[k])
  {
    if es == [] then []
    else
      var n := |es| - 1;
      IdsOf(es[..n]) + [IdOf(es[n])]
  }

  /** The root's direct children that are namespaced `part` elements, in order. */
  function PartsOf(root: Element): seq<Element> {
    WithTag(root.children, PartTag)
  }

  /** Every namespaced `score-part` anywhere below a root, in document order. */
  function ScorePartsIn(root: Element): seq<Element> {
    WithTag(Descendants(root), ScorePartTag)
  }

  /** Every part of the document carries an id. */
  predicate PartsIdentified(root: Element) {
    HasIds(PartsOf(root))
  }

  /** Every score-part of the document carries an id that can stand between the
      quotes of the `[@id='...']` predicate the merger builds from it. */
  predicate ScorePartsIdentified(root: Element) {
    var sps := ScorePartsIn(root);
    forall k :: 0 <= k < |sps| ==> "id" in sps[k].attrs && '\'' !in sps[k].attrs["id"]
  }

  /** Every parsed document among `names` has usable identifiers. */
  predicate Identified(docs: map<string, Element>, names: seq<string>) {
    forall name :: name in names && name in docs ==> PartsIdentified(docs[name]) && ScorePartsIdentified(docs[name])
  }

  /** Whether the root has a namespaced `part-list` child. */
  predicate HasPartList(root: Element) {
    FirstWithTag(root.children, PartListTag).Some?
  }

  /** The children of the root's part-list, none when it has none. */
  function PartListChildren(root: Element): seq<Element> {
    match FirstWithTag(root.children, PartListTag)
    case None => []
    case Some(k) => root.children[k].children
  }

  // ---------------------------------------------------------------------------
  // The two merges
  // ---------------------------------------------------------------------------

  /** The part-list lookup by id succeeds: some score-part child carries that id. */
  predicate Listed(cs: seq<Element>, id: string) {
    exists k :: 0 <= k < |cs| && cs[k].tag == ScorePartTag && "id" in cs[k].attrs && cs[k].attrs["id"] == id
  }

  /** The part-list's children after the score-parts `sps` were offered in
      order, each appended unless one with its id is already listed. */
  function MergeScoreParts(cs: seq<Element>, sps: seq<Element>): (r: seq<Element>)
    requires HasIds(sps)
    ensures |cs| <= |r|
  {
    if sps == [] then cs
    else
      var n := |sps| - 1;
      var m := MergeScoreParts(cs, sps[..n]);
      if Listed(m, IdOf(sps[n])) then m else m + [sps[n]]
  }

  /** The part dictionary after each part of `ps`, in order, is stored under its id. */
  function StoreParts(parts: map<string, Element>, ps: seq<Element>): map<string, Element>
    requires HasIds(ps)
  {
    if ps == [] then parts
    else
      var n := |ps| - 1;
      StoreParts(parts, ps[..n])[IdOf(ps[n]) := ps[n]]
  }

  /** The last element of `ps` with identifier `id`. */
  function LastWithId(ps: seq<Element>, id: string): (r: Option<Element>)
    requires HasIds(ps)
    ensures r.Some? ==> r.value in ps && IdOf(r.value) == id
  {
    if ps == [] then None
    else
      var n := |ps| - 1;
      if IdOf(ps[n]) == id then Some(ps[n]) else LastWithId(ps[..n], id)
  }

  /** The state the loop over the later pages carries: the part-list's
      children, the part dictionary, and every part id met so far. */
  datatype Merged = Merged(scoreParts: seq<Element>, parts: map<string, Element>, ids: seq<string>)

  /** The state after the first page. */
  function Initial(root: Element): Merged
    requires PartsIdentified(root)
  {
    var ps := PartsOf(root);
    Merged(PartListChildren(root), StoreParts(map[], ps), IdsOf(ps))
  }

  /** One later page merged in: its score-parts into the part-list, its parts
      into the dictionary. */
  function MergePage(m: Merged, hasPartList: bool, sub: Element): Result<Merged, JoinError>
    requires PartsIdentified(sub) && ScorePartsIdentified(sub)
  {
    var sps := ScorePartsIn(sub);
    if !hasPartList && sps != [] then Err(MissingPartList)
    else
      var ps := PartsOf(sub);
      Ok(Merged(MergeScoreParts(m.scoreParts, sps), StoreParts(m.parts, ps), m.ids + IdsOf(ps)))
  }

  /** The later pages merged in order; the first that fails to parse or to
      merge stops the loop. */
  function MergePages(names: seq<string>, docs: map<string, Element>, hasPartList: bool, first: Merged): Result<Merged, JoinError>
    requires Identified(docs, names)
  {
    if names == [] then Ok(first)
    else
      var n := |names| - 1;
      assert Identified(docs, names[..n]);
      match MergePages(names[..n], docs, hasPartList, first)
      case Err(e) => Err(e)
      case Ok(m) =>
        if names[n] !in docs then Err(Unparsable(names[n])) else MergePage(m, hasPartList, docs[names[n]])
  }

  // ---------------------------------------------------------------------------
  // The merged document
  // ---------------------------------------------------------------------------

  /** The parts stored under `keys`, in the order of `keys`. */
  function PartsInOrder(parts: map<string, Element>, keys: seq<string>): (r: seq<Element>)
    requires forall k :: 0 <= k < |keys| ==> keys[k] in parts
    ensures |r| == |keys| && forall k :: 0 <= k < |keys| ==> r[k] == parts[keys[k]]
  {
    if keys == [] then []
    else
      var n := |keys| - 1;
      PartsInOrder(parts, keys[..n]) + [parts[keys[n]]]
  }

  /** The first root's children with its part-list holding `scoreParts`. */
  function WithPartList(root: Element, scoreParts: seq<Element>): seq<Element> {
    match FirstWithTag(root.children, PartListTag)
    case None => root.children
    case Some(k) => root.children[k := root.children[k].(children := scoreParts)]
  }

  /** Writing the part-list back changes only the first part-list's children. */
  lemma WithPartListFacts(root: Element, scoreParts: seq<Element>)
    ensures var r := WithPartList(root, scoreParts);
      && |r| == |root.children|
      && (forall k :: 0 <= k < |r| ==> r[k].tag == root.children[k].tag)
      && (forall k :: 0 <= k < |r| && FirstWithTag(root.children, PartListTag) != Some(k) ==> r[k] == root.children[k])
      && (HasPartList(root) ==> r[FirstWithTag(root.children, PartListTag).value].children == scoreParts)
  {
  }

  /** The first root after its parts were removed and the stored parts
      appended in ascending id order. */
  function Assemble(root: Element, m: Merged): Element
    requires forall id :: id in m.ids ==> id in m.parts
  {
    var keys := SortUnique(m.ids);
    assert forall k :: 0 <= k < |keys| ==> keys[k] in m.parts by {
      forall k | 0 <= k < |keys| ensures keys[k] in m.parts {
        assert keys[k] in keys;
      }
    }
    root.(children := WithoutTag(WithPartList(root, m.scoreParts), PartTag) + PartsInOrder(m.parts, keys))
  }

  /** Every id met is a key of the dictionary, and every key an id met. */
  ghost predicate Consistent(m: Merged) {
    forall id :: id in m.parts <==> id in m.ids
  }

  lemma {:induction false} StorePartsKeys(parts: map<string, Element>, ps: seq<Element>)
    requires HasIds(ps)
    ensures forall id :: id in StoreParts(parts, ps) <==> id in parts || id in IdsOf(ps)
  {
    if ps != [] {
      var n := |ps| - 1;
      StorePartsKeys(parts, ps[..n]);
      assert IdsOf(ps) == IdsOf(ps[..n]) + [IdOf(ps[n])];
    }
  }

  lemma {:induction false} MergePagesConsistent(names: seq<string>, docs: map<string, Element>, hasPartList: bool, first: Merged)
    requires Identified(docs, names) && Consistent(first)
    ensures MergePages(names, docs, hasPartList, first).Ok? ==> Consistent(MergePages(names, docs, hasPartList, first).value)
  {
    if names != [] {
      var n := |names| - 1;
      assert Identified(docs, names[..n]);
      MergePagesConsistent(names[..n], docs, hasPartList, first);
      var r := MergePages(names[..n], docs, hasPartList, first);
      if r.Ok? && names[n] in docs {
        StorePartsKeys(r.value.parts, PartsOf(docs[names[n]]));
      }
    }
  }

  lemma InitialConsistent(root: Element)
    requires PartsIdentified(root)
    ensures Consistent(Initial(root))
  {
    StorePartsKeys(map[], PartsOf(root));
  }

  /** `join_musicxml_files` on a directory listing and the parsed files: the
      merged document, or why there is none. */
  function Join(listing: seq<string>, docs: map<string, Element>): Result<Element, JoinError>
    requires Identified(docs, SelectFiles(listing))
  {
    var files := SelectFiles(listing);
    if files == [] then Err(NoMusicXmlFiles)
    else if files[0] !in docs then Err(Unparsable(files[0]))
    else
      var root := docs[files[0]];
      assert files[0] in files;
      assert Identified(docs, files[1..]);
      InitialConsistent(root);
      MergePagesConsistent(files[1..], docs, HasPartList(root), Initial(root));
      match MergePages(files[1..], docs, HasPartList(root), Initial(root))
      case Err(e) => Err(e)
      case Ok(m) => Ok(Assemble(root, m))
  }

  // ---------------------------------------------------------------------------
  // The merger, step by step
  // ---------------------------------------------------------------------------

  /** The loop over one page's score-parts: each is appended to the part-list
      unless one with its id is listed already. */
  method MergeScorePartsInto(cs: seq<Element>, sps: seq<Element>) returns (r: seq<Element>)
    requires HasIds(sps)
    ensures r == MergeScoreParts(cs, sps)
  {
    r := cs;
    for i := 0 to |sps|
      invariant r == MergeScoreParts(cs, sps[..i])
    {
      var pid := IdOf(sps[i]);
      assert sps[..i + 1][..i] == sps[..i];
      if !Listed(r, pid) {
        r := r + [sps[i]];
      }
    }
    assert sps[..|sps|] == sps;
  }

  /** The loop that stores each of one page's parts under its id.  `order`
      is the dictionary's key order, each key once. */
  method StorePartsInto(parts: map<string, Element>, order: seq<string>, ps: seq<Element>)
    returns (parts': map<string, Element>, order': seq<string>)
    requires HasIds(ps) && Distinct(order) && forall id :: id in parts <==> id in order
    ensures parts' == StoreParts(parts, ps)
    ensures Distinct(order') && forall id :: id in parts' <==> id in order'
  {
    parts', order' := parts, order;
    for i := 0 to |ps|
      invariant parts' == StoreParts(parts, ps[..i])
      invariant Distinct(order') && forall id :: id in parts' <==> id in order'
    {
      var pid := IdOf(ps[i]);
      if pid !in parts' {
        order' := order' + [pid];
      }
      parts' := parts'[pid := ps[i]];
      assert ps[..i + 1][..i] == ps[..i];
    }
    assert ps[..|ps|] == ps;
  }

  /** Every part child is removed, one at a time, from a snapshot of the parts
      taken before the loop; each removal takes the first part still there,
      which is the one the snapshot names. */
  method RemoveParts(children: seq<Element>) returns (r: seq<Element>)
    ensures r == WithoutTag(children, PartTag)
  {
    var olds := WithTag(children, PartTag);
    r := children;
    for i := 0 to |olds|
      invariant WithTag(r, PartTag) == olds[i..]
      invariant WithoutTag(r, PartTag) == WithoutTag(children, PartTag)
    {
      WithTagSome(r, PartTag);
      var k := FirstWithTag(r, PartTag).value;
      RemoveFirstWithTag(r, k, PartTag);
      assert r[k] == olds[i];
      r := r[..k] + r[k + 1..];
    }
    WithTagNone(r, PartTag);
  }

  /** The stored parts are appended to the root one after another, in key order. */
  method AppendParts(children: seq<Element>, parts: map<string, Element>, keys: seq<string>) returns (r: seq<Element>)
    requires forall k :: 0 <= k < |keys| ==> keys[k] in parts
    ensures r == children + PartsInOrder(parts, keys)
  {
    r := children;
    for i := 0 to |keys|
      invariant r == children + PartsInOrder(parts, keys[..i])
    {
      assert keys[..i + 1][..i] == keys[..i];
      r := r + [parts[keys[i]]];
    }
    assert keys[..|keys|] == keys;
  }

  /** An error met on a prefix of the pages is the error of all of them. */
  lemma {:induction false} MergePagesErr(names: seq<string>, j: nat, docs: map<string, Element>, hasPartList: bool, first: Merged)
    requires j <= |names| && Identified(docs, names) && Identified(docs, names[..j])
    requires MergePages(names[..j], docs, hasPartList, first).Err?
    ensures MergePages(names, docs, hasPartList, first) == MergePages(names[..j], docs, hasPartList, first)
  {
    if j < |names| {
      var n := |names| - 1;
      assert names[..n][..j] == names[..j];
      assert Identified(docs, names[..n]);
      MergePagesErr(names[..n], j, docs, hasPartList, first);
    } else {
      assert names[..j] == names;
    }
  }

  /** One page more, on the pages `names[..i]`. */
  lemma MergePagesStep(names: seq<string>, i: nat, docs: map<string, Element>, hasPartList: bool, first: Merged)
    requires i < |names| && Identified(docs, names)
    ensures Identified(docs, names[..i]) && Identified(docs, names[..i + 1])
    ensures MergePages(names[..i + 1], docs, hasPartList, first) ==
      match MergePages(names[..i], docs, hasPartList, first)
      case Err(e) => Err(e)
      case Ok(m) => if names[i] !in docs then Err(Unparsable(names[i])) else MergePage(m, hasPartList, docs[names[i]])
  {
    assert names[..i + 1][..i] == names[..i];
    assert names[..i + 1][i] == names[i];
  }

  /** The keys in sorted order are the ids met, without repetitions, in ascending order. */
  lemma SortedKeys(parts: map<string, Element>, order: seq<string>, m: Merged)
    requires Distinct(order) && (forall id :: id in parts <==> id in order)
    requires m.parts == parts && Consistent(m)
    ensures Sort(order) == SortUnique(m.ids)
  {
    SortDistinct(order);
    StrictlySortedUnique(SortUnique(order), SortUnique(m.ids));
  }

  /** One later page: its score-parts into the part-list (which the first
      document must have when there are any), its parts into the dictionary,
      whose key order is `order`. */
  method MergeNextPage(m: Merged, order: seq<string>, hasPartList: bool, sub: Element)
    returns (r: Result<Merged, JoinError>, order': seq<string>)
    requires PartsIdentified(sub) && ScorePartsIdentified(sub)
    requires Distinct(order) && forall id :: id in m.parts <==> id in order
    ensures r == MergePage(m, hasPartList, sub)
    ensures r.Ok? ==> Distinct(order') && forall id :: id in r.value.parts <==> id in order'
  {
    var sps := ScorePartsIn(sub);
    if !hasPartList && |sps| > 0 {
      return Err(MissingPartList), order;
    }
    var scoreParts := MergeScorePartsInto(m.scoreParts, sps);
    var parts;
    parts, order' := StorePartsInto(m.parts, order, PartsOf(sub));
    r := Ok(Merged(scoreParts, parts, m.ids + IdsOf(PartsOf(sub))));
  }

  /** The loop over the later pages, stopping at the first that does not parse
      or merge. */
  method MergeLaterPages(rest: seq<string>, docs: map<string, Element>, hasPartList: bool, first: Merged, order0: seq<string>)
    returns (r: Result<Merged, JoinError>, order: seq<string>)
    requires Identified(docs, rest) && Distinct(order0) && forall id :: id in first.parts <==> id in order0
    ensures r == MergePages(rest, docs, hasPartList, first)
    ensures r.Ok? ==> Distinct(order) && forall id :: id in r.value.parts <==> id in order
  {
    var m := first;
    order := order0;
    assert rest[..0] == [];
    for i := 0 to |rest|
      invariant Identified(docs, rest[..i])
      invariant MergePages(rest[..i], docs, hasPartList, first) == Ok(m)
      invariant Distinct(order) && forall id :: id in m.parts <==> id in order
    {
      MergePagesStep(rest, i, docs, hasPartList, first);
      if rest[i] !in docs {
        MergePagesErr(rest, i + 1, docs, hasPartList, first);
        return Err(Unparsable(rest[i])), order;
      }
      var next;
      next, order := MergeNextPage(m, order, hasPartList, docs[rest[i]]);
      if next.Err? {
        MergePagesErr(rest, i + 1, docs, hasPartList, first);
        return next, order;
      }
      m := next.value;
    }
    assert rest[..|rest|] == rest;
    r := Ok(m);
  }

  /** Writing the part-list back, then `root.remove` of every old part and
      `root.append` of the stored ones in sorted key order. */
  method AssembleDocument(root: Element, m: Merged, order: seq<string>) returns (doc: Element)
    requires Consistent(m) && Distinct(order) && forall id :: id in m.parts <==> id in order
    ensures doc == Assemble(root, m)
  {
    var partList := FirstWithTag(root.children, PartListTag);
    var children := root.children;
    if partList.Some? {
      children := children[partList.value := children[partList.value].(children := m.scoreParts)];
    }
    children := RemoveParts(children);
    var keys := Sort(order);
    SortedKeys(m.parts, order, m);
    assert forall k :: 0 <= k < |keys| ==> keys[k] in m.parts by {
      forall k | 0 <= k < |keys| ensures keys[k] in m.parts {
        assert keys[k] in keys;
      }
    }
    children := AppendParts(children, m.parts, keys);
    doc := root.(children := children);
  }

  /** `join_musicxml_files`: the later pages merged into the first one in
      sorted name order, then the parts re-attached in ascending id order. */
  method JoinMusicXmlFiles(listing: seq<string>, docs: map<string, Element>) returns (r: Result<Element, JoinError>)
    requires Identified(docs, SelectFiles(listing))
    ensures r == Join(listing, docs)
  {
    var files := SelectFiles(listing);
    if |files| == 0 {
      return Err(NoMusicXmlFiles);
    }
    if files[0] !in docs {
      return Err(Unparsable(files[0]));
    }
    var root := docs[files[0]];
    assert files[0] in files;
    var hasPartList := FirstWithTag(root.children, PartListTag).Some?;
    var ps := PartsOf(root);
    var parts, order := StorePartsInto(map[], [], ps);
    var first := Merged(PartListChildren(root), parts, IdsOf(ps));
    assert Identified(docs, files[1..]);
    InitialConsistent(root);
    var merged, order' := MergeLaterPages(files[1..], docs, hasPartList, first, order);
    MergePagesConsistent(files[1..], docs, hasPartList, first);
    if merged.Err? {
      return Err(merged.error);
    }
    var doc := AssembleDocument(root, merged.value, order');
    r := Ok(doc);
  }

  // ---------------------------------------------------------------------------
  // The part-list merge
  // ---------------------------------------------------------------------------

  lemma ListedAppend(cs: seq<Element>, extra: seq<Element>, id: string)
    requires Listed(cs, id)
    ensures Listed(cs + extra, id)
  {
    var k :| 0 <= k < |cs| && cs[k].tag == ScorePartTag && "id" in cs[k].attrs && cs[k].attrs["id"] == id;
    assert (cs + extra)[k] == cs[k];
  }

  /** The score-parts added to `cs`: each comes from `sps`, no two share an id,
      and none shares an id with a score-part listed in `cs`. */
  predicate AddedScoreParts(cs: seq<Element>, added: seq<Element>, sps: seq<Element>) {
    && (forall k :: 0 <= k < |added| ==> added[k] in sps && "id" in added[k].attrs && !Listed(cs, added[k].attrs["id"]))
    && (forall i, j :: 0 <= i < j < |added| ==> "id" in added[i].attrs && "id" in added[j].attrs ==>
          added[i].attrs["id"] != added[j].attrs["id"])
  }

  /** The merge keeps what was listed in front and appends only score-parts of `sps`. */
  lemma {:induction false} MergeScorePartsGrows(cs: seq<Element>, sps: seq<Element>)
    requires HasIds(sps) && AllTagged(sps, ScorePartTag)
    ensures var r := MergeScoreParts(cs, sps);
      && r[..|cs|] == cs
      && (forall k :: |cs| <= k < |r| ==> r[k] in sps)
      && AllTagged(r[|cs|..], ScorePartTag)
  {
    if sps != [] {
      var n := |sps| - 1;
      var front := sps[..n];
      MergeScorePartsGrows(cs, front);
      var m := MergeScoreParts(cs, front);
      forall k | |cs| <= k < |m| ensures m[k] in sps {
        assert m[k] in front;
      }
      if !Listed(m, IdOf(sps[n])) {
        var r := m + [sps[n]];
        assert r[..|cs|] == m[..|cs|];
        assert r[|cs|..] == m[|cs|..] + [sps[n]];
      }
    }
  }

  /** After the merge every score-part id of `sps` is listed. */
  lemma {:induction false} MergeScorePartsListed(cs: seq<Element>, sps: seq<Element>)
    requires HasIds(sps) && AllTagged(sps, ScorePartTag)
    ensures forall k :: 0 <= k < |sps| ==> Listed(MergeScoreParts(cs, sps), IdOf(sps[k]))
  {
    if sps != [] {
      var n := |sps| - 1;
      var front := sps[..n];
      MergeScorePartsListed(cs, front);
      var m := MergeScoreParts(cs, front);
      var r := MergeScoreParts(cs, sps);
      forall k | 0 <= k < |sps| ensures Listed(r, IdOf(sps[k])) {
        if k < n {
          assert Listed(m, IdOf(front[k]));
          ListedAppend(m, r[|m|..], IdOf(sps[k]));
          assert m + r[|m|..] == r;
        } else if !Listed(m, IdOf(sps[n])) {
          assert r[|m|] == sps[n];
        }
      }
    }
  }

  /** The merge adds no id twice and none already listed in `cs`. */
  lemma {:induction false} MergeScorePartsNew(cs: seq<Element>, sps: seq<Element>)
    requires HasIds(sps) && AllTagged(sps, ScorePartTag)
    ensures AddedScoreParts(cs, MergeScoreParts(cs, sps)[|cs|..], sps)
  {
    MergeScorePartsGrows(cs, sps);
    if sps != [] {
      var n := |sps| - 1;
      var front := sps[..n];
      var sp := sps[n];
      MergeScorePartsNew(cs, front);
      MergeScorePartsGrows(cs, front);
      var m := MergeScoreParts(cs, front);
      var added := MergeScoreParts(cs, sps)[|cs|..];
      forall k | 0 <= k < |added| ensures "id" in added[k].attrs && !Listed(cs, added[k].attrs["id"]) {
        if k < |m| - |cs| {
          assert added[k] == m[|cs|..][k];
        } else {
          assert added[k] == sp;
        }
      }
      forall i, j | 0 <= i < j < |added| && "id" in added[i].attrs && "id" in added[j].attrs
        ensures added[i].attrs["id"] != added[j].attrs["id"]
      {
        if j < |m| - |cs| {
          assert added[i] == m[|cs|..][i] && added[j] == m[|cs|..][j];
        } else {
          assert added[j] == sp && added[i] == m[|cs| + i];
          assert m[|cs| + i].tag == ScorePartTag by {
            assert m[|cs| + i] == m[|cs|..][i];
          }
        }
      }
    }
  }

  /** The score-part at `k` is the first of `sps` with its id, and no score-part
      of `cs` has it. */
  predicate IsFirstNew(cs: seq<Element>, sps: seq<Element>, k: nat)
    requires HasIds(sps) && k < |sps|
  {
    !Listed(cs, IdOf(sps[k])) && forall j :: 0 <= j < k ==> IdOf(sps[j]) != IdOf(sps[k])
  }

  /** The score-parts of `sps` that are first with an id not listed in `cs`, in
      the order they are met. */
  function FirstNew(cs: seq<Element>, sps: seq<Element>): seq<Element>
    requires HasIds(sps)
  {
    if sps == [] then []
    else
      var n := |sps| - 1;
      FirstNew(cs, sps[..n]) + (if IsFirstNew(cs, sps, n) then [sps[n]] else [])
  }

  lemma ListedConcat(a: seq<Element>, b: seq<Element>, id: string)
    ensures Listed(a + b, id) <==> Listed(a, id) || Listed(b, id)
  {
    if Listed(a + b, id) {
      var k :| 0 <= k < |a + b| && (a + b)[k].tag == ScorePartTag && "id" in (a + b)[k].attrs && (a + b)[k].attrs["id"] == id;
      if k >= |a| { assert (a + b)[k] == b[k - |a|]; }
    }
    if Listed(b, id) {
      var k :| 0 <= k < |b| && b[k].tag == ScorePartTag && "id" in b[k].attrs && b[k].attrs["id"] == id;
      assert (a + b)[|a| + k] == b[k];
    }
    if Listed(a, id) {
      ListedAppend(a, b, id);
    }
  }

  /** After the first new score-parts are appended, an id is listed exactly when
      it was listed before or some score-part of `sps` carries it. */
  lemma {:induction false} ListedFirstNew(cs: seq<Element>, sps: seq<Element>, id: string)
    requires HasIds(sps) && AllTagged(sps, ScorePartTag)
    ensures Listed(cs + FirstNew(cs, sps), id) <==> Listed(cs, id) || id in IdsOf(sps)
  {
    if sps == [] {
      assert cs + [] == cs;
    } else {
      var n := |sps| - 1;
      var front := sps[..n];
      var tail := if IsFirstNew(cs, sps, n) then [sps[n]] else [];
      ListedFirstNew(cs, front, id);
      AppendAssoc(cs, FirstNew(cs, front), tail);
      ListedConcat(cs + FirstNew(cs, front), tail, id);
      IdsOfLast(sps, id);
      FirstNewLast(cs, sps);
      if tail != [] {
        ListedSingle(sps[n], id);
      }
    }
  }

  /** An id is among those of `es` exactly when it is among those in front of the last or is the last one's. */
  lemma IdsOfLast(es: seq<Element>, id: string)
    requires es != [] && HasIds(es)
    ensures HasIds(es[..|es| - 1])
    ensures id in IdsOf(es) <==> id in IdsOf(es[..|es| - 1]) || id == IdOf(es[|es| - 1])
  {
    var n := |es| - 1;
    assert HasIds(es[..n]) by {
      assert forall k :: 0 <= k < n ==> es[..n][k] == es[k];
    }
    assert IdsOf(es) == IdsOf(es[..n]) + [IdOf(es[n])];
  }

  /** One score-part lists exactly its own id. */
  lemma ListedSingle(x: Element, id: string)
    requires x.tag == ScorePartTag && "id" in x.attrs
    ensures Listed([x], id) <==> IdOf(x) == id
  {
    assert [x][0] == x;
  }

  /** The last score-part is first new exactly when its id is neither listed
      already nor carried by a score-part in front of it. */
  lemma FirstNewLast(cs: seq<Element>, sps: seq<Element>)
    requires sps != [] && HasIds(sps)
    ensures HasIds(sps[..|sps| - 1])
    ensures IsFirstNew(cs, sps, |sps| - 1) <==>
      !Listed(cs, IdOf(sps[|sps| - 1])) && IdOf(sps[|sps| - 1]) !in IdsOf(sps[..|sps| - 1])
  {
    var n := |sps| - 1;
    var id := IdOf(sps[n]);
    assert HasIds(sps[..n]) by {
      assert forall k :: 0 <= k < n ==> sps[..n][k] == sps[k];
    }
    var ids := IdsOf(sps[..n]);
    if !IsFirstNew(cs, sps, n) && !Listed(cs, id) {
      var j :| 0 <= j < n && IdOf(sps[j]) == id;
      assert ids[j] == id;
    }
    if id in ids {
      var j :| 0 <= j < n && ids[j] == id;
      assert IdOf(sps[j]) == id;
    }
  }

  /** The part-list merge appends to `cs` exactly the score-parts of `sps` that are
      first with an id not yet listed, in the order they are met. */
  lemma {:induction false} MergeScorePartsFirstNew(cs: seq<Element>, sps: seq<Element>)
    requires HasIds(sps) && AllTagged(sps, ScorePartTag)
    ensures MergeScoreParts(cs, sps) == cs + FirstNew(cs, sps)
  {
    if sps == [] {
      assert cs + [] == cs;
    } else {
      var n := |sps| - 1;
      var front := sps[..n];
      var x := sps[n];
      MergeScorePartsFirstNew(cs, front);
      ListedFirstNew(cs, front, IdOf(x));
      FirstNewLast(cs, sps);
      var tail := if IsFirstNew(cs, sps, n) then [x] else [];
      AppendAssoc(cs, FirstNew(cs, front), tail);
    }
  }

  /** Of two score-parts with the same id, the merge keeps the first one met. */
  lemma FirstScorePartKept(a: Element, b: Element)
    requires a.tag == ScorePartTag && b.tag == ScorePartTag
    requires "id" in a.attrs && "id" in b.attrs && IdOf(a) == IdOf(b)
    ensures HasIds([a, b]) && MergeScoreParts([], [a, b]) == [a]
  {
    assert [a, b][..1] == [a] && [a][..0] == [];
    assert MergeScoreParts([], [a]) == [a];
    assert Listed([a], IdOf(b)) by { assert [a][0] == a; }
  }

  /** The part-list merge keeps what was listed in front and appends the page's
      score-parts that are first with an id not yet listed, in the order they are
      met; so it adds no id twice and none already listed, and afterwards every
      score-part id of the page is listed. */
  lemma MergeScorePartsFacts(cs: seq<Element>, sps: seq<Element>)
    requires HasIds(sps) && AllTagged(sps, ScorePartTag)
    ensures var r := MergeScoreParts(cs, sps);
      && r == cs + FirstNew(cs, sps)
      && |cs| <= |r| && r[..|cs|] == cs
      && AddedScoreParts(cs, r[|cs|..], sps)
      && forall k :: 0 <= k < |sps| ==> Listed(r, IdOf(sps[k]))
  {
    MergeScorePartsFirstNew(cs, sps);
    MergeScorePartsGrows(cs, sps);
    MergeScorePartsNew(cs, sps);
    MergeScorePartsListed(cs, sps);
  }

  lemma {:induction false} MergeScorePartsConcat(cs: seq<Element>, a: seq<Element>, b: seq<Element>)
    requires HasIds(a) && HasIds(b)
    ensures HasIds(a + b)
    ensures MergeScoreParts(MergeScoreParts(cs, a), b) == MergeScoreParts(cs, a + b)
  {
    var ab := a + b;
    assert HasIds(ab) by {
      forall k | 0 <= k < |ab| ensures "id" in ab[k].attrs {
        if k >= |a| { assert ab[k] == b[k - |a|]; }
      }
    }
    if b == [] {
      assert ab == a;
    } else {
      var n := |b| - 1;
      var front := b[..n];
      assert ab[..|ab| - 1] == a + front;
      assert ab[|ab| - 1] == b[n];
      MergeScorePartsConcat(cs, a, front);
    }
  }

  // ---------------------------------------------------------------------------
  // The part dictionary
  // ---------------------------------------------------------------------------

  /** `LastWithId` finds the element of `ps` with that id that no later element
      of `ps` shares it with, and finds one exactly when some element has the id. */
  lemma LastWithIdIsLast(ps: seq<Element>, id: string)
    requires HasIds(ps)
    ensures LastWithId(ps, id).Some? <==> id in IdsOf(ps)
    ensures LastWithId(ps, id).Some? ==>
      exists k :: 0 <= k < |ps| && ps[k] == LastWithId(ps, id).value && forall j :: k < j < |ps| ==> IdOf(ps[j]) != id
  {
    LastWithIdFound(ps, id);
    LastWithIdLater(ps, id);
  }

  lemma {:induction false} LastWithIdFound(ps: seq<Element>, id: string)
    requires HasIds(ps)
    ensures LastWithId(ps, id).Some? <==> id in IdsOf(ps)
  {
    if ps != [] {
      var n := |ps| - 1;
      LastWithIdFound(ps[..n], id);
      IdsOfLast(ps, id);
    }
  }

  lemma {:induction false} LastWithIdLater(ps: seq<Element>, id: string)
    requires HasIds(ps)
    ensures LastWithId(ps, id).Some? ==>
      exists k :: 0 <= k < |ps| && ps[k] == LastWithId(ps, id).value && forall j :: k < j < |ps| ==> IdOf(ps[j]) != id
  {
    if ps != [] {
      var n := |ps| - 1;
      assert HasIds(ps[..n]) by {
        assert forall k :: 0 <= k < n ==> ps[..n][k] == ps[k];
      }
      LastWithIdLater(ps[..n], id);
      if IdOf(ps[n]) == id {
        assert ps[n] == LastWithId(ps, id).value;
      } else if LastWithId(ps[..n], id).Some? {
        var k :| 0 <= k < n && ps[..n][k] == LastWithId(ps[..n], id).value &&
          forall j :: k < j < n ==> IdOf(ps[..n][j]) != id;
        assert ps[k] == LastWithId(ps, id).value;
        assert forall j :: k < j < |ps| ==> IdOf(ps[j]) != id by {
          forall j | k < j < |ps| ensures IdOf(ps[j]) != id {
            if j < n { assert ps[..n][j] == ps[j]; }
          }
        }
      }
    }
  }

  /** Last writer wins: after the loop over `ps` an id maps to the last part of
      `ps` with that id, and to what it mapped to before when `ps` has none. */
  lemma {:induction false} StorePartsLast(parts: map<string, Element>, ps: seq<Element>)
    requires HasIds(ps)
    ensures forall id :: id in StoreParts(parts, ps) <==> id in parts || LastWithId(ps, id).Some?
    ensures forall id :: LastWithId(ps, id).Some? ==> StoreParts(parts, ps)[id] == LastWithId(ps, id).value
    ensures forall id :: id in parts && LastWithId(ps, id).None? ==> StoreParts(parts, ps)[id] == parts[id]
  {
    if ps != [] {
      var n := |ps| - 1;
      StorePartsLast(parts, ps[..n]);
    }
  }

  lemma {:induction false} StorePartsConcat(parts: map<string, Element>, a: seq<Element>, b: seq<Element>)
    requires HasIds(a) && HasIds(b)
    ensures HasIds(a + b)
    ensures StoreParts(StoreParts(parts, a), b) == StoreParts(parts, a + b)
    ensures IdsOf(a) + IdsOf(b) == IdsOf(a + b)
  {
    if b == [] {
      assert a + b == a;
    } else {
      var n := |b| - 1;
      assert (a + b)[..|a| + n] == a + b[..n];
      assert (a + b)[|a| + n] == b[n];
      StorePartsConcat(parts, a, b[..n]);
    }
  }

  // ---------------------------------------------------------------------------
  // How the merge ends
  // ---------------------------------------------------------------------------

  lemma TagsDistinct()
    ensures PartTag != PartListTag && PartTag != ScorePartTag && PartListTag != ScorePartTag
  {
    assert |PartTag| == 41 && |PartListTag| == 46 && |ScorePartTag| == 47;
  }

  /** A later page stops the merge: it does not parse, or it brings score-parts
      while the first document has no part-list to put them in. */
  predicate PageFails(docs: map<string, Element>, hasPartList: bool, name: string) {
    name !in docs || (!hasPartList && ScorePartsIn(docs[name]) != [])
  }

  /** The error a failing page raises. */
  function PageError(docs: map<string, Element>, name: string): JoinError {
    if name !in docs then Unparsable(name) else MissingPartList
  }

  /** One more page: the loop fails at it exactly when it fails, with its error. */
  lemma MergePagesLast(names: seq<string>, docs: map<string, Element>, hasPartList: bool, first: Merged)
    requires names != [] && Identified(docs, names)
    ensures Identified(docs, names[..|names| - 1])
    ensures var n := |names| - 1;
      var r := MergePages(names[..n], docs, hasPartList, first);
      r.Ok? ==>
        (MergePages(names, docs, hasPartList, first).Ok? <==> !PageFails(docs, hasPartList, names[n])) &&
        (MergePages(names, docs, hasPartList, first).Err? ==>
          MergePages(names, docs, hasPartList, first).error == PageError(docs, names[n]))
    ensures var n := |names| - 1;
      var r := MergePages(names[..n], docs, hasPartList, first);
      r.Err? ==> MergePages(names, docs, hasPartList, first) == r
  {
    assert names[|names| - 1] in names;
  }

  /** The page loop succeeds exactly when no page fails, and otherwise raises
      the error of the first page that does. */
  lemma {:induction false} MergePagesOutcome(names: seq<string>, docs: map<string, Element>, hasPartList: bool, first: Merged)
    requires Identified(docs, names)
    ensures MergePages(names, docs, hasPartList, first).Ok? <==>
      forall i :: 0 <= i < |names| ==> !PageFails(docs, hasPartList, names[i])
    ensures MergePages(names, docs, hasPartList, first).Err? ==>
      exists i :: 0 <= i < |names| && PageFails(docs, hasPartList, names[i]) &&
        (forall j :: 0 <= j < i ==> !PageFails(docs, hasPartList, names[j])) &&
        MergePages(names, docs, hasPartList, first).error == PageError(docs, names[i])
  {
    if names != [] {
      var n := |names| - 1;
      var front := names[..n];
      MergePagesLast(names, docs, hasPartList, first);
      MergePagesOutcome(front, docs, hasPartList, first);
      var r := MergePages(front, docs, hasPartList, first);
      assert forall j :: 0 <= j < n ==> front[j] == names[j];
      if r.Err? {
        var i :| 0 <= i < n && PageFails(docs, hasPartList, front[i]) &&
          (forall j :: 0 <= j < i ==> !PageFails(docs, hasPartList, front[j])) && r.error == PageError(docs, front[i]);
        assert PageFails(docs, hasPartList, names[i]);
      }
    }
  }

  /** Every page among `names` parses. */
  predicate AllParsed(docs: map<string, Element>, names: seq<string>) {
    forall name :: name in names ==> name in docs
  }

  /** The parts of the pages `names`, page after page. */
  function AllParts(docs: map<string, Element>, names: seq<string>): (r: seq<Element>)
    requires AllParsed(docs, names) && Identified(docs, names)
    ensures HasIds(r) && AllTagged(r, PartTag)
  {
    if names == [] then []
    else
      var n := |names| - 1;
      assert names[n] in names;
      WithTagTagged(docs[names[n]].children, PartTag);
      AllParts(docs, names[..n]) + PartsOf(docs[names[n]])
  }

  /** The score-parts of the pages `names`, page after page. */
  function AllScoreParts(docs: map<string, Element>, names: seq<string>): (r: seq<Element>)
    requires AllParsed(docs, names) && Identified(docs, names)
    ensures HasIds(r) && AllTagged(r, ScorePartTag)
  {
    if names == [] then []
    else
      var n := |names| - 1;
      assert names[n] in names;
      WithTagTagged(Descendants(docs[names[n]]), ScorePartTag);
      AllScoreParts(docs, names[..n]) + ScorePartsIn(docs[names[n]])
  }

  /** When every page parses and merges, the page loop has merged the pages'
      score-parts and stored their parts as if they were one sequence. */
  lemma {:induction false} MergePagesOk(names: seq<string>, docs: map<string, Element>, hasPartList: bool, first: Merged)
    requires Identified(docs, names) && AllParsed(docs, names)
    requires hasPartList || forall name :: name in names ==> ScorePartsIn(docs[name]) == []
    ensures MergePages(names, docs, hasPartList, first) == Ok(Merged(
      MergeScoreParts(first.scoreParts, AllScoreParts(docs, names)),
      StoreParts(first.parts, AllParts(docs, names)),
      first.ids + IdsOf(AllParts(docs, names))))
  {
    if names == [] {
      assert first.ids + [] == first.ids;
    } else {
      var n := |names| - 1;
      var front := names[..n];
      assert names[n] in names;
      var sub := docs[names[n]];
      MergePagesOk(front, docs, hasPartList, first);
      var pa, pb := AllParts(docs, front), PartsOf(sub);
      MergeScorePartsConcat(first.scoreParts, AllScoreParts(docs, front), ScorePartsIn(sub));
      StorePartsConcat(first.parts, pa, pb);
      AppendAssoc(first.ids, IdsOf(pa), IdsOf(pb));
    }
  }

  // ---------------------------------------------------------------------------
  // The merged document, described at once
  // ---------------------------------------------------------------------------

  /** The parts of all selected pages, the first page's first. */
  function PagesParts(docs: map<string, Element>, files: seq<string>): (r: seq<Element>)
    requires files != [] && AllParsed(docs, files) && Identified(docs, files)
    ensures HasIds(r) && AllTagged(r, PartTag)
  {
    assert files[0] in files;
    WithTagTagged(docs[files[0]].children, PartTag);
    PartsOf(docs[files[0]]) + AllParts(docs, files[1..])
  }

  /** The first page's part-list children with every later page's score-parts merged in. */
  function MergedScoreParts(docs: map<string, Element>, files: seq<string>): seq<Element>
    requires files != [] && AllParsed(docs, files) && Identified(docs, files)
  {
    assert files[0] in files;
    MergeScoreParts(PartListChildren(docs[files[0]]), AllScoreParts(docs, files[1..]))
  }

  /** The document the merger writes when every selected page parses and merges:
      the first page, its part-list holding `MergedScoreParts`, its parts replaced
      by the parts of all pages, one per id in ascending id order. */
  function Joined(docs: map<string, Element>, files: seq<string>): Element
    requires files != [] && AllParsed(docs, files) && Identified(docs, files)
  {
    var all := PagesParts(docs, files);
    StorePartsKeys(map[], all);
    Assemble(docs[files[0]], Merged(MergedScoreParts(docs, files), StoreParts(map[], all), IdsOf(all)))
  }

  /** When every page parses and merges, the page loop ends in the state `Joined` assembles. */
  lemma PagesJoined(docs: map<string, Element>, files: seq<string>)
    requires files != [] && AllParsed(docs, files) && Identified(docs, files)
    requires HasPartList(docs[files[0]]) || forall name :: name in files[1..] ==> ScorePartsIn(docs[name]) == []
    ensures Identified(docs, files[1..])
    ensures var root := docs[files[0]]; var all := PagesParts(docs, files);
      MergePages(files[1..], docs, HasPartList(root), Initial(root)) ==
        Ok(Merged(MergedScoreParts(docs, files), StoreParts(map[], all), IdsOf(all)))
  {
    var root := docs[files[0]];
    var rest := files[1..];
    assert files[0] in files;
    MergePagesOk(rest, docs, HasPartList(root), Initial(root));
    StorePartsConcat(map[], PartsOf(root), AllParts(docs, rest));
  }

  /** The merger succeeds exactly when some file is selected, every selected file
      parses, and the later pages bring no score-parts unless the first document
      has a part-list. */
  lemma JoinSucceeds(listing: seq<string>, docs: map<string, Element>)
    requires Identified(docs, SelectFiles(listing))
    ensures var files := SelectFiles(listing);
      Join(listing, docs).Ok? <==>
        && files != [] && AllParsed(docs, files) && files[0] in docs
        && (HasPartList(docs[files[0]]) || forall name :: name in files[1..] ==> name in docs && ScorePartsIn(docs[name]) == [])
  {
    var files := SelectFiles(listing);
    if files != [] && files[0] in docs {
      var root := docs[files[0]];
      var rest := files[1..];
      assert AllParsed(docs, files) <==> AllParsed(docs, rest) by {
        assert files == [files[0]] + rest;
      }
      MergePagesOutcome(rest, docs, HasPartList(root), Initial(root));
      NoPageFails(docs, HasPartList(root), rest);
    }
  }

  /** No later page fails exactly when every one parses and, without a part-list,
      none brings score-parts. */
  lemma NoPageFails(docs: map<string, Element>, hasPartList: bool, names: seq<string>)
    ensures (forall i :: 0 <= i < |names| ==> !PageFails(docs, hasPartList, names[i])) <==>
      && AllParsed(docs, names)
      && (hasPartList || forall name :: name in names ==> name in docs && ScorePartsIn(docs[name]) == [])
  {
    if forall i :: 0 <= i < |names| ==> !PageFails(docs, hasPartList, names[i]) {
      forall name | name in names ensures name in docs && (hasPartList || ScorePartsIn(docs[name]) == []) {
        var i :| 0 <= i < |names| && names[i] == name;
        assert !PageFails(docs, hasPartList, names[i]);
      }
    }
  }

  /** When the merger succeeds it writes `Joined`. */
  lemma JoinWrites(listing: seq<string>, docs: map<string, Element>)
    requires Identified(docs, SelectFiles(listing)) && Join(listing, docs).Ok?
    ensures var files := SelectFiles(listing);
      files != [] && AllParsed(docs, files) && Join(listing, docs).value == Joined(docs, files)
  {
    var files := SelectFiles(listing);
    JoinSucceeds(listing, docs);
    PagesJoined(docs, files);
  }

  /** Why the merger fails: it selects no file exactly when no listed name ends in
      ".musicxml"; a file it cannot parse is one it selected; it misses a part-list
      only when the first document has none and a later page brings score-parts. */
  lemma JoinErrors(listing: seq<string>, docs: map<string, Element>)
    requires Identified(docs, SelectFiles(listing))
    ensures Join(listing, docs) == Err(NoMusicXmlFiles) <==> forall f :: f in listing ==> !IsMusicXmlName(f)
    ensures Join(listing, docs).Err? && Join(listing, docs).error.Unparsable? ==>
      var name := Join(listing, docs).error.name;
      name in listing && IsMusicXmlName(name) && name !in docs
    ensures Join(listing, docs) == Err(MissingPartList) ==>
      var files := SelectFiles(listing);
      && files != [] && files[0] in docs && !HasPartList(docs[files[0]])
      && exists name :: name in files[1..] && name in docs && ScorePartsIn(docs[name]) != []
  {
    SelectFilesMembers(listing);
    var files := SelectFiles(listing);
    if files != [] {
      assert files[0] in files;
      if files[0] in docs {
        var root := docs[files[0]];
        var rest := files[1..];
        assert Identified(docs, rest);
        MergePagesOutcome(rest, docs, HasPartList(root), Initial(root));
        if MergePages(rest, docs, HasPartList(root), Initial(root)).Err? {
          var i :| 0 <= i < |rest| && PageFails(docs, HasPartList(root), rest[i]) &&
            MergePages(rest, docs, HasPartList(root), Initial(root)).error == PageError(docs, rest[i]);
          assert rest[i] in files;
        }
      }
    }
  }

  lemma TaggedMember(cs: seq<Element>, x: Element, tag: string)
    requires AllTagged(cs, tag) && x in cs
    ensures x.tag == tag
  {
    var i :| 0 <= i < |cs| && cs[i] == x;
  }

  /** The dictionary filled from `all` and read back in ascending key order gives,
      for each id of `all` once and in ascending order, the last part with that id. */
  lemma StoredInOrder(all: seq<Element>)
    requires HasIds(all) && AllTagged(all, PartTag)
    ensures forall id :: id in StoreParts(map[], all) <==> id in IdsOf(all)
    ensures forall k :: 0 <= k < |SortUnique(IdsOf(all))| ==> SortUnique(IdsOf(all))[k] in StoreParts(map[], all)
    ensures var keys := SortUnique(IdsOf(all)); var ps := PartsInOrder(StoreParts(map[], all), keys);
      && AllTagged(ps, PartTag) && HasIds(ps) && IdsOf(ps) == keys
      && forall k :: 0 <= k < |ps| ==> LastWithId(all, keys[k]) == Some(ps[k])
  {
    var parts := StoreParts(map[], all);
    var keys := SortUnique(IdsOf(all));
    StorePartsKeys(map[], all);
    StorePartsLast(map[], all);
    forall k | 0 <= k < |keys| ensures keys[k] in parts {
      assert keys[k] in keys;
    }
    var ps := PartsInOrder(parts, keys);
    forall k | 0 <= k < |ps|
      ensures ps[k].tag == PartTag && "id" in ps[k].attrs && IdOf(ps[k]) == keys[k] && LastWithId(all, keys[k]) == Some(ps[k])
    {
      TaggedMember(all, LastWithId(all, keys[k]).value, PartTag);
    }
    assert IdsOf(ps) == keys;
  }

  /** The merged document's parts: one per id met on any page, in ascending id
      order ("P10" before "P2"), each the last part with that id in page order. */
  lemma JoinedParts(docs: map<string, Element>, files: seq<string>)
    requires files != [] && AllParsed(docs, files) && Identified(docs, files)
    ensures var ps := WithTag(Joined(docs, files).children, PartTag); var all := PagesParts(docs, files);
      && HasIds(ps) && IdsOf(ps) == SortUnique(IdsOf(all))
      && forall k :: 0 <= k < |ps| ==> LastWithId(all, IdOf(ps[k])) == Some(ps[k])
  {
    var root := docs[files[0]];
    var all := PagesParts(docs, files);
    StoredInOrder(all);
    var wp := WithPartList(root, MergedScoreParts(docs, files));
    var w := WithoutTag(wp, PartTag);
    var ps := PartsInOrder(StoreParts(map[], all), SortUnique(IdsOf(all)));
    assert Joined(docs, files).children == w + ps;
    WithTagTagged(wp, PartTag);
    WithTagAbsent(w, PartTag);
    AllTaggedWithTag(ps, PartTag);
    WithTagConcat(w, ps, PartTag);
    assert [] + ps == ps;
  }

  /** The merged document is the first page with its part-list rewritten and its
      parts moved behind every other child, which keep their order. */
  lemma JoinedRest(docs: map<string, Element>, files: seq<string>)
    requires files != [] && AllParsed(docs, files) && Identified(docs, files)
    ensures var d := Joined(docs, files); var root := docs[files[0]];
      && d.tag == root.tag && d.attrs == root.attrs && d.value == root.value
      && WithoutTag(d.children, PartTag) == WithoutTag(WithPartList(root, MergedScoreParts(docs, files)), PartTag)
      && d.children == WithoutTag(d.children, PartTag) + WithTag(d.children, PartTag)
  {
    var root := docs[files[0]];
    var all := PagesParts(docs, files);
    StoredInOrder(all);
    var wp := WithPartList(root, MergedScoreParts(docs, files));
    var w := WithoutTag(wp, PartTag);
    var ps := PartsInOrder(StoreParts(map[], all), SortUnique(IdsOf(all)));
    assert Joined(docs, files).children == w + ps;
    WithTagTagged(wp, PartTag);
    WithTagAbsent(w, PartTag);
    AllTaggedWithTag(ps, PartTag);
    WithTagConcat(w, ps, PartTag);
    assert [] + ps == ps && w + [] == w;
  }

  /** The merged part-list is the first page's entries followed by the later pages'
      score-parts that are first, in page order and document order, with an id the
      first page does not list. */
  lemma MergedScorePartsFirstNew(docs: map<string, Element>, files: seq<string>)
    requires files != [] && AllParsed(docs, files) && Identified(docs, files)
    ensures AllParsed(docs, files[1..]) && Identified(docs, files[1..])
    ensures var cs := PartListChildren(docs[files[0]]);
      MergedScoreParts(docs, files) == cs + FirstNew(cs, AllScoreParts(docs, files[1..]))
  {
    assert forall name :: name in files[1..] ==> name in files;
    MergeScorePartsFirstNew(PartListChildren(docs[files[0]]), AllScoreParts(docs, files[1..]));
  }

  /** The merged document has a part-list exactly when the first page has one, and
      then it holds the first page's entries with the later pages' score-parts merged in. */
  lemma JoinedPartList(docs: map<string, Element>, files: seq<string>)
    requires files != [] && AllParsed(docs, files) && Identified(docs, files)
    ensures var d := Joined(docs, files); var root := docs[files[0]];
      && HasPartList(d) == HasPartList(root)
      && (HasPartList(root) ==> PartListChildren(d) == MergedScoreParts(docs, files))
  {
    var root := docs[files[0]];
    var all := PagesParts(docs, files);
    StoredInOrder(all);
    var wp := WithPartList(root, MergedScoreParts(docs, files));
    var w := WithoutTag(wp, PartTag);
    var ps := PartsInOrder(StoreParts(map[], all), SortUnique(IdsOf(all)));
    var d := Joined(docs, files);
    assert d.children == w + ps;
    TagsDistinct();
    WithPartListFacts(root, MergedScoreParts(docs, files));
    if HasPartList(root) {
      var k0 := FirstWithTag(root.children, PartListTag).value;
      FirstWithTagAt(wp, k0, PartListTag);
      FirstWithTagWithout(wp, PartListTag, PartTag);
      var j := FirstWithTag(w, PartListTag).value;
      FirstWithTagAt(w + ps, j, PartListTag);
    } else {
      WithTagMembers(wp, PartTag);
      forall j | 0 <= j < |w + ps| ensures (w + ps)[j].tag != PartListTag {
        if j < |w| {
          assert w[j] in wp;
          var i :| 0 <= i < |wp| && wp[i] == w[j];
        } else {
          assert (w + ps)[j] == ps[j - |w|];
        }
      }
    }
  }

  // ---------------------------------------------------------------------------
  // A single page
  // ---------------------------------------------------------------------------

  /** A page already in merged form: its parts come behind every other child, in
      strictly ascending id order. */
  predicate Normalised(root: Element) {
    && PartsIdentified(root)
    && root.children == WithoutTag(root.children, PartTag) + PartsOf(root)
    && StrictlySorted(IdsOf(PartsOf(root)))
  }

  /** Among parts with distinct ids each is the last with its id. */
  lemma LastWithIdDistinct(ps: seq<Element>, k: nat)
    requires HasIds(ps) && k < |ps| && StrictlySorted(IdsOf(ps))
    ensures LastWithId(ps, IdOf(ps[k])) == Some(ps[k])
  {
    var id := IdOf(ps[k]);
    LastWithIdIsLast(ps, id);
    assert IdsOf(ps)[k] == id;
    var k' :| 0 <= k' < |ps| && ps[k'] == LastWithId(ps, id).value && forall j :: k' < j < |ps| ==> IdOf(ps[j]) != id;
    assert IdsOf(ps)[k'] == id;
    StrictlySortedDistinct(IdsOf(ps));
  }

  /** Parts with strictly ascending ids come back from the dictionary as they were. */
  lemma StoredDistinct(ps: seq<Element>)
    requires HasIds(ps) && AllTagged(ps, PartTag) && StrictlySorted(IdsOf(ps))
    ensures forall k :: 0 <= k < |SortUnique(IdsOf(ps))| ==> SortUnique(IdsOf(ps))[k] in StoreParts(map[], ps)
    ensures PartsInOrder(StoreParts(map[], ps), SortUnique(IdsOf(ps))) == ps
  {
    StoredInOrder(ps);
    var keys := SortUnique(IdsOf(ps));
    StrictlySortedUnique(keys, IdsOf(ps));
    var pio := PartsInOrder(StoreParts(map[], ps), keys);
    forall k | 0 <= k < |ps| ensures pio[k] == ps[k] {
      LastWithIdDistinct(ps, k);
      assert keys[k] == IdOf(ps[k]);
    }
  }

  /** Writing back a part-list's own children changes nothing. */
  lemma WithOwnPartList(root: Element)
    ensures WithPartList(root, PartListChildren(root)) == root.children
  {
  }

  /** Joining nothing to a page already in merged form gives the page back. */
  lemma SingleJoined(docs: map<string, Element>, f: string)
    requires f in docs && Identified(docs, [f]) && Normalised(docs[f])
    ensures AllParsed(docs, [f]) && Joined(docs, [f]) == docs[f]
  {
    var root := docs[f];
    var files := [f];
    assert files[1..] == [];
    var ps := PartsOf(root);
    WithTagTagged(root.children, PartTag);
    assert PagesParts(docs, files) == ps;
    assert MergedScoreParts(docs, files) == PartListChildren(root);
    WithOwnPartList(root);
    StoredDistinct(ps);
  }

  /** A single page keeps its part-list as it is, and gets its parts back one per
      id, in ascending id order, each the last part with that id on the page. */
  lemma OnePageJoined(docs: map<string, Element>, f: string)
    requires f in docs && Identified(docs, [f])
    ensures AllParsed(docs, [f])
    ensures var d := Joined(docs, [f]); var ps := WithTag(d.children, PartTag); var own := PartsOf(docs[f]);
      && HasPartList(d) == HasPartList(docs[f])
      && PartListChildren(d) == PartListChildren(docs[f])
      && HasIds(own) && HasIds(ps) && IdsOf(ps) == SortUnique(IdsOf(own))
      && forall k :: 0 <= k < |ps| ==> LastWithId(own, IdOf(ps[k])) == Some(ps[k])
  {
    var files := [f];
    assert files[1..] == [];
    assert PagesParts(docs, files) == PartsOf(docs[f]);
    assert MergedScoreParts(docs, files) == PartListChildren(docs[f]);
    JoinedParts(docs, files);
    JoinedPartList(docs, files);
  }
  /** The merger on a directory with one MusicXML file that is already in merged
      form writes that file's document unchanged. */
  lemma JoinSingle(listing: seq<string>, docs: map<string, Element>)
    requires |SelectFiles(listing)| == 1 && SelectFiles(listing)[0] in docs
    requires Identified(docs, SelectFiles(listing)) && Normalised(docs[SelectFiles(listing)[0]])
    ensures Join(listing, docs) == Ok(docs[SelectFiles(listing)[0]])
  {
    var files := SelectFiles(listing);
    assert files == [files[0]];
    JoinSucceeds(listing, docs);
    JoinWrites(listing, docs);
    SingleJoined(docs, files[0]);
  }

  // ---------------------------------------------------------------------------
  // Examples
  // ---------------------------------------------------------------------------

  /** Part ids are ordered as strings, so "P10" goes before "P2". */
  lemma P10BeforeP2()
    ensures Lt("P10", "P2") && SortUnique(["P2", "P10"]) == ["P10", "P2"]
  {
    assert Le("10", "2");
    assert !Le("2", "10");
  }

  const Page1Name := "page1.musicxml"
  const Page2Name := "page2.musicxml"

  function DemoTag(qualified: bool, local: string): string {
    if qualified then Q(local) else local
  }

  /** One page of the module's own demonstration: a score with part P1 holding one
      measure with one quarter-length note of octave 4; `qualified` puts every tag
      in the MusicXML namespace. */
  function DemoPage(qualified: bool, number: string, step: string): Element {
    var t := (local: string) => DemoTag(qualified, local);
    Element(t("score-partwise"), map["version" := "3.1"], NoValue, [
      Element(t("part"), map["id" := "P1"], NoValue, [
        Element(t("measure"), map["number" := number], NoValue, [
          Node(t("note"), [
            Node(t("pitch"), [Leaf(t("step"), Text(step)), Leaf(t("octave"), Text("4"))]),
            Leaf(t("duration"), Text("4"))])])])])
  }

  /** A name without capital letters is its own lower-case form. */
  lemma LowerUnchanged(s: string)
    requires forall i :: 0 <= i < |s| ==> !('A' <= s[i] <= 'Z')
    ensures Lower(s) == s
  {
  }

  lemma DemoNames()
    ensures IsMusicXmlName(Page1Name) && IsMusicXmlName(Page2Name)
  {
    LowerUnchanged(Page1Name);
    LowerUnchanged(Page2Name);
  }

  lemma DemoOrder()
    ensures Le(Page1Name, Page2Name) && Page1Name != Page2Name
  {
    assert Le(Page1Name[4..], Page2Name[4..]);
    assert Le(Page1Name[3..], Page2Name[3..]);
    assert Le(Page1Name[2..], Page2Name[2..]);
    assert Le(Page1Name[1..], Page2Name[1..]);
  }

  /** The demonstration's directory lists its two pages in this order. */
  lemma DemoFiles()
    ensures SelectFiles([Page1Name, Page2Name]) == [Page1Name, Page2Name]
  {
    var listing := [Page1Name, Page2Name];
    assert Filter(listing) == listing by {
      DemoNames();
      assert listing[..1] == [Page1Name];
      assert [Page1Name][..0] == [];
      assert Filter([Page1Name]) == [Page1Name];
    }
    assert Sort(listing) == listing by {
      DemoOrder();
      assert listing[1..] == [Page2Name];
      assert Sort([Page2Name]) == [Page2Name];
    }
  }

  /** No element of `cs` is a score-part. */
  predicate NoScorePart(cs: seq<Element>) {
    forall k :: 0 <= k < |cs| ==> cs[k].tag != ScorePartTag
  }

  lemma NoScorePartConcat(a: seq<Element>, b: seq<Element>)
    requires NoScorePart(a) && NoScorePart(b)
    ensures NoScorePart(a + b)
  {
    forall k | 0 <= k < |a + b| ensures (a + b)[k].tag != ScorePartTag {
      if k >= |a| { assert (a + b)[k] == b[k - |a|]; }
    }
  }

  /** An element that is not a score-part, above elements of which none is either. */
  lemma NoScorePartAbove(e: Element)
    requires e.tag != ScorePartTag && NoScorePart(Preorder(e.children))
    ensures NoScorePart(Preorder([e]))
  {
    PreorderSingle(e);
    NoScorePartConcat([e], Preorder(e.children));
  }

  /** No tag of the demonstration is the score-part tag: the local names are all
      shorter than "score-part", so the tags differ in length. */
  lemma DemoTagNotScorePart(qualified: bool, local: string)
    requires |local| < 10
    ensures DemoTag(qualified, local) != ScorePartTag
  {
    assert |ScorePartTag| == 47 && |Q(local)| == 37 + |local|;
  }

  /** The note of a demonstration page: pitch (step, octave) and duration. */
  lemma DemoNoteBelow(qualified: bool, step: string)
    ensures var t := (local: string) => DemoTag(qualified, local);
      NoScorePart(Preorder([Node(t("note"), [
        Node(t("pitch"), [Leaf(t("step"), Text(step)), Leaf(t("octave"), Text("4"))]),
        Leaf(t("duration"), Text("4"))])]))
  {
    var t := (local: string) => DemoTag(qualified, local);
    DemoTagNotScorePart(qualified, "note");
    DemoTagNotScorePart(qualified, "pitch");
    DemoTagNotScorePart(qualified, "step");
    DemoTagNotScorePart(qualified, "octave");
    DemoTagNotScorePart(qualified, "duration");
    var leaves := [Leaf(t("step"), Text(step)), Leaf(t("octave"), Text("4"))];
    var pitch := Node(t("pitch"), leaves);
    var duration := Leaf(t("duration"), Text("4"));
    PreorderLeaves(leaves);
    NoScorePartAbove(pitch);
    PreorderLeaves([duration]);
    assert [pitch, duration] == [pitch] + [duration];
    PreorderCons(pitch, [duration]);
    PreorderSingle(pitch);
    NoScorePartConcat(Preorder([pitch]), [duration]);
    NoScorePartAbove(Node(t("note"), [pitch, duration]));
  }

  lemma DemoBelow(qualified: bool, number: string, step: string)
    ensures NoScorePart(Descendants(DemoPage(qualified, number, step)))
  {
    var page := DemoPage(qualified, number, step);
    var part := page.children[0];
    var measure := part.children[0];
    DemoNoteBelow(qualified, step);
    DemoTagNotScorePart(qualified, "measure");
    DemoTagNotScorePart(qualified, "part");
    NoScorePartAbove(measure);
    NoScorePartAbove(part);
  }

  /** The demonstration page has no score-part, no part-list, and one part
      that the merger sees only when the page is namespaced. */
  lemma DemoPageContents(qualified: bool, number: string, step: string)
    ensures var page := DemoPage(qualified, number, step);
      && ScorePartsIn(page) == [] && !HasPartList(page)
      && PartsOf(page) == (if qualified then page.children else [])
  {
    var page := DemoPage(qualified, number, step);
    assert |ScorePartTag| == 47 && |PartListTag| == 46 && |PartTag| == 41;
    DemoBelow(qualified, number, step);
    WithTagAbsent(Descendants(page), ScorePartTag);
    if qualified {
      WithTagSingle(page.children[0], PartTag);
    } else {
      WithTagAbsent(page.children, PartTag);
    }
  }

  /** The demonstration's two pages, parsed. */
  function DemoDocs(qualified: bool): map<string, Element> {
    map[Page1Name := DemoPage(qualified, "1", "C"), Page2Name := DemoPage(qualified, "2", "D")]
  }

  lemma DemoParsed(qualified: bool)
    ensures Page1Name in DemoDocs(qualified) && Page2Name in DemoDocs(qualified)
    ensures DemoDocs(qualified)[Page1Name] == DemoPage(qualified, "1", "C")
    ensures DemoDocs(qualified)[Page2Name] == DemoPage(qualified, "2", "D")
  {
    DemoOrder();
  }

  /** What the merger gathers from exactly two pages. */
  lemma TwoPages(docs: map<string, Element>, files: seq<string>)
    requires |files| == 2 && AllParsed(docs, files) && Identified(docs, files)
    ensures files[0] in docs && files[1] in docs
    ensures PagesParts(docs, files) == PartsOf(docs[files[0]]) + PartsOf(docs[files[1]])
    ensures MergedScoreParts(docs, files) == MergeScoreParts(PartListChildren(docs[files[0]]), ScorePartsIn(docs[files[1]]))
  {
    assert files[0] in files && files[1] in files;
    var rest := files[1..];
    assert rest == [files[1]] && rest[..0] == [];
    var ps, sps := PartsOf(docs[files[1]]), ScorePartsIn(docs[files[1]]);
    assert AllParts(docs, rest) == [] + ps && [] + ps == ps;
    assert AllScoreParts(docs, rest) == [] + sps && [] + sps == sps;
  }

  /** Two pages on which the merger finds neither part nor score-part: the
      merged document is the first page. */
  lemma JoinedTwoWithoutParts(docs: map<string, Element>, files: seq<string>)
    requires |files| == 2 && AllParsed(docs, files) && Identified(docs, files)
    requires files[0] in docs && files[1] in docs
    requires PartsOf(docs[files[0]]) == [] && PartsOf(docs[files[1]]) == []
    requires ScorePartsIn(docs[files[1]]) == []
    ensures Joined(docs, files) == docs[files[0]]
  {
    var root := docs[files[0]];
    var d := Joined(docs, files);
    TwoPages(docs, files);
    assert PagesParts(docs, files) == [];
    assert MergedScoreParts(docs, files) == PartListChildren(root);
    JoinedParts(docs, files);
    assert WithTag(d.children, PartTag) == [];
    JoinedRest(docs, files);
    WithOwnPartList(root);
    WithTagNone(root.children, PartTag);
    assert d.children == root.children + [];
  }

  /** The merger on two such pages writes the first page unchanged. */
  lemma JoinTwoWithoutParts(listing: seq<string>, docs: map<string, Element>)
    requires |SelectFiles(listing)| == 2 && SelectFiles(listing)[0] in docs && SelectFiles(listing)[1] in docs
    requires var files := SelectFiles(listing);
      && PartsOf(docs[files[0]]) == [] && PartsOf(docs[files[1]]) == []
      && ScorePartsIn(docs[files[0]]) == [] && ScorePartsIn(docs[files[1]]) == []
    ensures Identified(docs, SelectFiles(listing))
    ensures Join(listing, docs) == Ok(docs[SelectFiles(listing)[0]])
  {
    var files := SelectFiles(listing);
    IdentifiedTwo(docs, files);
    assert files[1..] == [files[1]];
    JoinSucceeds(listing, docs);
    JoinWrites(listing, docs);
    JoinedTwoWithoutParts(docs, files);
  }

  lemma IdentifiedTwo(docs: map<string, Element>, files: seq<string>)
    requires |files| == 2 && files[0] in docs && files[1] in docs
    requires PartsIdentified(docs[files[0]]) && ScorePartsIdentified(docs[files[0]])
    requires PartsIdentified(docs[files[1]]) && ScorePartsIdentified(docs[files[1]])
    ensures AllParsed(docs, files) && Identified(docs, files)
  {
  }

  lemma TwoSameIds(p1: Element, p2: Element)
    requires "id" in p1.attrs && "id" in p2.attrs && IdOf(p1) == IdOf(p2)
    ensures HasIds([p1] + [p2]) && IdsOf([p1] + [p2]) == [IdOf(p1), IdOf(p1)]
    ensures SortUnique(IdsOf([p1] + [p2])) == [IdOf(p1)]
    ensures LastWithId([p1] + [p2], IdOf(p1)) == Some(p2)
  {
    assert [p1] + [p2] == [p1, p2];
    SortUniqueTwice(IdOf(p1));
  }

  lemma OnlyLast(ps: seq<Element>, all: seq<Element>, p: Element)
    requires HasIds(ps) && HasIds(all) && "id" in p.attrs && IdsOf(ps) == [IdOf(p)]
    requires forall k :: 0 <= k < |ps| ==> LastWithId(all, IdOf(ps[k])) == Some(ps[k])
    requires LastWithId(all, IdOf(p)) == Some(p)
    ensures ps == [p]
  {
    assert IdOf(ps[0]) == IdOf(p);
  }

  /** Two pages that each hold one part, the same one, and the first nothing else:
      the merged document is the first page with the second page's part. */
  lemma JoinedTwoSamePart(docs: map<string, Element>, files: seq<string>, p1: Element, p2: Element)
    requires |files| == 2 && AllParsed(docs, files) && Identified(docs, files)
    requires "id" in p1.attrs && "id" in p2.attrs && IdOf(p1) == IdOf(p2) && p1.tag == PartTag
    requires files[0] in docs && files[1] in docs
    requires docs[files[0]].children == [p1] && PartsOf(docs[files[1]]) == [p2]
    ensures Joined(docs, files) == docs[files[0]].(children := [p2])
  {
    var root := docs[files[0]];
    var d := Joined(docs, files);
    WithTagSingle(p1, PartTag);
    TwoPages(docs, files);
    TwoSameIds(p1, p2);
    JoinedParts(docs, files);
    OnlyLast(WithTag(d.children, PartTag), PagesParts(docs, files), p2);
    TagsDistinct();
    assert FirstWithTag(root.children, PartListTag).None?;
    JoinedRest(docs, files);
    assert d.children == [] + [p2];
  }

  /** The merger on two such pages. */
  lemma JoinTwoSamePart(listing: seq<string>, docs: map<string, Element>, p1: Element, p2: Element)
    requires |SelectFiles(listing)| == 2 && SelectFiles(listing)[0] in docs && SelectFiles(listing)[1] in docs
    requires "id" in p1.attrs && "id" in p2.attrs && IdOf(p1) == IdOf(p2) && p1.tag == PartTag
    requires var files := SelectFiles(listing);
      && docs[files[0]].children == [p1] && PartsOf(docs[files[1]]) == [p2]
      && ScorePartsIn(docs[files[0]]) == [] && ScorePartsIn(docs[files[1]]) == []
    ensures Identified(docs, SelectFiles(listing))
    ensures Join(listing, docs) == Ok(docs[SelectFiles(listing)[0]].(children := [p2]))
  {
    var files := SelectFiles(listing);
    WithTagSingle(p1, PartTag);
    IdentifiedTwo(docs, files);
    assert files[1..] == [files[1]];
    JoinSucceeds(listing, docs);
    JoinWrites(listing, docs);
    JoinedTwoSamePart(docs, files, p1, p2);
  }

  /** The demonstration as written: neither page closes its `part` element, so
      neither parses, and the merger stops at the first page. */
  lemma ExampleUnclosed()
    ensures Join([Page1Name, Page2Name], map[]) == Err(Unparsable(Page1Name))
  {
    DemoFiles();
  }

  /** The demonstration with its `part` elements closed but, as written, outside
      the MusicXML namespace: the merger finds no part on either page and writes
      the first page unchanged, so page 2's measure is lost. */
  lemma ExampleUnqualified()
    ensures Identified(DemoDocs(false), SelectFiles([Page1Name, Page2Name]))
    ensures Join([Page1Name, Page2Name], DemoDocs(false)) == Ok(DemoPage(false, "1", "C"))
  {
    DemoFiles();
    DemoParsed(false);
    DemoPageContents(false, "1", "C");
    DemoPageContents(false, "2", "D");
    JoinTwoWithoutParts([Page1Name, Page2Name], DemoDocs(false));
  }

  /** The demonstration with namespaced, well-formed pages: page 2's part P1
      replaces page 1's, and the merged document is page 2's. */
  lemma ExampleNamespaced()
    ensures Identified(DemoDocs(true), SelectFiles([Page1Name, Page2Name]))
    ensures Join([Page1Name, Page2Name], DemoDocs(true)) == Ok(DemoPage(true, "2", "D"))
  {
    DemoFiles();
    DemoParsed(true);
    DemoPageContents(true, "1", "C");
    DemoPageContents(true, "2", "D");
    var page1, page2 := DemoPage(true, "1", "C"), DemoPage(true, "2", "D");
    assert |PartTag| == 41;
    JoinTwoSamePart([Page1Name, Page2Name], DemoDocs(true), page1.children[0], page2.children[0]);
    assert page1.(children := page2.children) == page2;
  }
}
