/** `parse_commentary_html`: pairs each heading marker of the commentary fragment with
    the first body block (`div.sub`) among its later siblings. */
module Commentary {
  import opened Wrappers
  import opened Dom
  import Text
  import Seqs

  predicate IsSub(n: CNode) {
    n.Sub?
  }

  /** `find_next_sibling("div", class_="sub")` from position `i`, read with
      `get_text(" ", strip=True)`. */
  function BodyAfter(nodes: seq<CNode>, i: nat): (r: Option<string>)
    requires i < |nodes|
    ensures r.None? <==> forall j :: i < j < |nodes| ==> !nodes[j].Sub?
    ensures r.Some? ==> exists j :: i < j < |nodes| && nodes[j].Sub? &&
                                    (forall k :: i < k < j ==> !nodes[k].Sub?) &&
                                    r.value == Text.Join(nodes[j].fragments)
  {
    var rest := nodes[i + 1..];
    match Seqs.FindFirst(IsSub, rest)
    case None =>
      assert forall j :: i < j < |nodes| ==> nodes[j] == rest[j - i - 1];
      None
    case Some(k) =>
      assert rest[k] == nodes[i + 1 + k];
      assert forall j :: i < j < i + 1 + k ==> nodes[j] == rest[j - i - 1];
      Some(Text.Join(nodes[i + 1 + k].fragments))
  }

  /** Position `i` holds a heading that has a body block after it. */
  ghost predicate Paired(nodes: seq<CNode>, i: int) {
    0 <= i < |nodes| && nodes[i].Heading? && BodyAfter(nodes, i).Some?
  }

  /** The loop over the headings from position `i` on, adding to `acc`. */
  function PairFrom(nodes: seq<CNode>, i: nat, acc: map<string, string>): map<string, string>
    requires i <= |nodes|
    decreases |nodes| - i
  {
    if i == |nodes| then acc
    else
      var acc' :=
        match nodes[i]
        case Heading(h) =>
          (match BodyAfter(nodes, i)
           case Some(body) => acc[h := body]
           case None => acc)
        case _ => acc;
      PairFrom(nodes, i + 1, acc')
  }

  /** The commentary mapping from heading text to body text. Its keys are exactly the
      headings that have a later body block; headings without one are omitted. */
  function ParseCommentary(nodes: seq<CNode>): (r: map<string, string>)
    ensures forall h :: h in r <==> exists j :: Paired(nodes, j) && nodes[j].text == h
    ensures forall h :: h in r ==> exists j :: LastPaired(nodes, j, h) && r[h] == BodyAfter(nodes, j).value
  {
    var r := PairFrom(nodes, 0, map[]);
    forall h ensures h in r <==> exists j :: Paired(nodes, j) && nodes[j].text == h {
      PairFromKeys(nodes, 0, map[], h);
    }
    forall h | h in r ensures exists j :: LastPaired(nodes, j, h) && r[h] == BodyAfter(nodes, j).value {
      var j0 :| Paired(nodes, j0) && nodes[j0].text == h;
      var j := LastPairedFrom(nodes, j0, h);
      PairFromLast(nodes, 0, map[], j);
    }
    r
  }

  /** Position `j` is the last paired occurrence of heading `h`. */
  ghost predicate LastPaired(nodes: seq<CNode>, j: int, h: string) {
    Paired(nodes, j) && nodes[j].text == h &&
    forall k :: j < k && Paired(nodes, k) ==> nodes[k].text != h
  }

  /** A paired occurrence of `h` at or after `j0` that no later paired occurrence follows. */
  lemma {:induction false} LastPairedFrom(nodes: seq<CNode>, j0: nat, h: string) returns (j: nat)
    requires Paired(nodes, j0) && nodes[j0].text == h
    ensures j0 <= j && LastPaired(nodes, j, h)
    decreases |nodes| - j0
  {
    if k :| j0 < k && Paired(nodes, k) && nodes[k].text == h {
      j := LastPairedFrom(nodes, k, h);
    } else {
      j := j0;
    }
  }

  lemma {:induction false} PairFromKeys(nodes: seq<CNode>, i: nat, acc: map<string, string>, h: string)
    requires i <= |nodes|
    ensures h in PairFrom(nodes, i, acc) <==> h in acc || exists j :: i <= j && Paired(nodes, j) && nodes[j].text == h
    decreases |nodes| - i
  {
    if i < |nodes| {
      var acc' :=
        match nodes[i]
        case Heading(h) =>
          (match BodyAfter(nodes, i)
           case Some(body) => acc[h := body]
           case None => acc)
        case _ => acc;
      PairFromKeys(nodes, i + 1, acc', h);
    }
  }

  lemma {:induction false} PairFromKeep(nodes: seq<CNode>, i: nat, acc: map<string, string>, h: string)
    requires i <= |nodes| && h in acc
    requires forall j :: i <= j && Paired(nodes, j) ==> nodes[j].text != h
    ensures h in PairFrom(nodes, i, acc) && PairFrom(nodes, i, acc)[h] == acc[h]
    decreases |nodes| - i
  {
    if i < |nodes| {
      var acc' :=
        match nodes[i]
        case Heading(h) =>
          (match BodyAfter(nodes, i)
           case Some(body) => acc[h := body]
           case None => acc)
        case _ => acc;
      PairFromKeep(nodes, i + 1, acc', h);
    }
  }

  lemma {:induction false} PairFromLast(nodes: seq<CNode>, i: nat, acc: map<string, string>, j: nat)
    requires i <= j && Paired(nodes, j)
    requires forall k :: j < k && Paired(nodes, k) ==> nodes[k].text != nodes[j].text
    ensures nodes[j].text in PairFrom(nodes, i, acc)
    ensures PairFrom(nodes, i, acc)[nodes[j].text] == BodyAfter(nodes, j).value
    decreases |nodes| - i
  {
    var acc' :=
      match nodes[i]
      case Heading(h) =>
        (match BodyAfter(nodes, i)
         case Some(body) => acc[h := body]
         case None => acc)
      case _ => acc;
    if i == j {
      PairFromKeep(nodes, i + 1, acc', nodes[j].text);
    } else {
      PairFromLast(nodes, i + 1, acc', j);
    }
  }
}
