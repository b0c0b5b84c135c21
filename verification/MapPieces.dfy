/**
 The scatter-gather list of one chunk (hcd_dma.c's hcdMapExecute): MapTransfer hands out physically
 contiguous runs, and each is cut at page boundaries into at most HCD_SG_ELEMENTS elements.
 */
module MapPieces {

  const PAGE: nat := 4096
  const ELEMENTS: nat := 32                    // HCD_SG_ELEMENTS
  const FOUR_GB: nat := 0x1_0000_0000

  /** One answer of MapTransfer: an address in two halves, and the bytes it covers. */
  datatype Run = Run(low: nat, high: nat, bytes: nat)

  datatype Element = Element(address: nat, length: nat, offset: nat)

  predicate Usable(r: Run) {
    r.bytes > 0 && r.high == 0
  }

  /** The answers MapTransfer may give for `left` bytes: never more than is left, a run below 4 GB lying
      wholly below it, and no further answer asked for after an unusable one or past the end. */
  predicate Answers(runs: seq<Run>, left: nat) {
    if left == 0 then runs == []
    else
      && runs != [] && runs[0].bytes <= left
      && (runs[0].high == 0 ==> runs[0].low + runs[0].bytes <= FOUR_GB)
      && (if Usable(runs[0]) then Answers(runs[1..], left - runs[0].bytes) else |runs| == 1)
  }

  predicate AllUsable(runs: seq<Run>) {
    forall i :: 0 <= i < |runs| ==> Usable(runs[i])
  }

  function PieceOf(low: nat, bytes: nat): (r: nat)
    ensures bytes > 0 ==> 0 < r <= bytes
  {
    var toPageEnd := PAGE - low % PAGE;
    if toPageEnd > bytes then bytes else toPageEnd
  }

  function Cut(low: nat, bytes: nat, offset: nat): seq<Element>
    decreases bytes
  {
    if bytes == 0 then []
    else
      var piece := PieceOf(low, bytes);
      [Element(low, piece, offset)] + Cut(low + piece, bytes - piece, offset + piece)
  }

  function CutAll(runs: seq<Run>, offset: nat): seq<Element> {
    if runs == [] then [] else Cut(runs[0].low, runs[0].bytes, offset) + CutAll(runs[1..], offset + runs[0].bytes)
  }

  // ----- what the elements are ------------------------------------------------------------------

  /** Elements that cover exactly the bytes from `from` to `to`, in order, without a gap, each within
      one page. */
  predicate Tiles(es: seq<Element>, from: nat, to: nat) {
    if es == [] then from == to
    else
      && es[0].offset == from && es[0].length > 0
      && es[0].address / PAGE == (es[0].address + es[0].length - 1) / PAGE
      && Tiles(es[1..], from + es[0].length, to)
  }

  function Total(runs: seq<Run>): nat {
    if runs == [] then 0 else runs[0].bytes + Total(runs[1..])
  }

  /** The physical address MapTransfer gave for byte `b`. */
  function AddressOf(runs: seq<Run>, b: nat): nat
    requires b < Total(runs)
  {
    if b < runs[0].bytes then runs[0].low + b else AddressOf(runs[1..], b - runs[0].bytes)
  }

  lemma {:induction false} TilesJoin(a: seq<Element>, b: seq<Element>, from: nat, mid: nat, to: nat)
    requires Tiles(a, from, mid) && Tiles(b, mid, to)
    ensures Tiles(a + b, from, to)
  {
    if a == [] {
      assert a + b == b;
    } else {
      assert (a + b)[1..] == a[1..] + b;
      TilesJoin(a[1..], b, from + a[0].length, mid, to);
    }
  }

  lemma OnePage(low: nat, bytes: nat)
    requires bytes > 0
    ensures low / PAGE == (low + PieceOf(low, bytes) - 1) / PAGE
  {
    var q, r := low / PAGE, low % PAGE;
    assert low == PAGE * q + r;
    assert low + PieceOf(low, bytes) - 1 < PAGE * (q + 1);
  }

  lemma {:induction false} CutTiles(low: nat, bytes: nat, offset: nat)
    ensures Tiles(Cut(low, bytes, offset), offset, offset + bytes)
    decreases bytes
  {
    if bytes > 0 {
      var piece := PieceOf(low, bytes);
      OnePage(low, bytes);
      CutTiles(low + piece, bytes - piece, offset + piece);
      var es := Cut(low, bytes, offset);
      assert es[1..] == Cut(low + piece, bytes - piece, offset + piece);
    }
  }

  lemma {:induction false} CutAllTiles(runs: seq<Run>, offset: nat)
    ensures Tiles(CutAll(runs, offset), offset, offset + Total(runs))
  {
    if runs != [] {
      CutTiles(runs[0].low, runs[0].bytes, offset);
      CutAllTiles(runs[1..], offset + runs[0].bytes);
      TilesJoin(Cut(runs[0].low, runs[0].bytes, offset), CutAll(runs[1..], offset + runs[0].bytes),
                offset, offset + runs[0].bytes, offset + Total(runs));
    }
  }

  lemma {:induction false} CutAddresses(low: nat, bytes: nat, offset: nat, e: Element)
    requires e in Cut(low, bytes, offset)
    ensures offset <= e.offset && e.offset + e.length <= offset + bytes && e.address == low + (e.offset - offset)
    decreases bytes
  {
    if bytes > 0 {
      var piece := PieceOf(low, bytes);
      if e != Element(low, piece, offset) {
        CutAddresses(low + piece, bytes - piece, offset + piece, e);
      }
    }
  }

  /** Every byte of every element is at the address MapTransfer gave for that byte. */
  lemma {:induction false} AddressesHold(runs: seq<Run>, offset: nat, e: Element, k: nat)
    requires e in CutAll(runs, offset) && k < e.length
    ensures offset <= e.offset && e.offset + k - offset < Total(runs)
    ensures e.address + k == AddressOf(runs, e.offset + k - offset)
  {
    if e in Cut(runs[0].low, runs[0].bytes, offset) {
      CutAddresses(runs[0].low, runs[0].bytes, offset, e);
    } else {
      AddressesHold(runs[1..], offset + runs[0].bytes, e, k);
    }
  }

  lemma {:induction false} AnswersTotal(runs: seq<Run>, left: nat)
    requires Answers(runs, left) && AllUsable(runs)
    ensures Total(runs) == left
  {
    if left > 0 {
      AnswersTotal(runs[1..], left - runs[0].bytes);
    }
  }

  // ----- how many there are -----------------------------------------------------------------------

  /** The pages a run touches. */
  function Pages(low: nat, bytes: nat): nat {
    if bytes == 0 then 0 else (low + bytes - 1) / PAGE - low / PAGE + 1
  }

  function AllPages(runs: seq<Run>): nat {
    if runs == [] then 0 else Pages(runs[0].low, runs[0].bytes) + AllPages(runs[1..])
  }

  /** The first piece is to the end of its page, or the whole run. */
  lemma PieceTakesPage(low: nat, bytes: nat)
    requires bytes > 0
    ensures var piece := PieceOf(low, bytes);
            Pages(low, bytes) == 1 + Pages(low + piece, bytes - piece)
  {
    var piece := PieceOf(low, bytes);
    OnePage(low, bytes);
    if piece < bytes {
      assert low + piece == PAGE * (low / PAGE + 1);
    }
  }

  /** The pieces are as long as they can be: one for each page a run touches. */
  lemma {:induction false} OneAPage(low: nat, bytes: nat, offset: nat)
    ensures |Cut(low, bytes, offset)| == Pages(low, bytes)
    decreases bytes
  {
    if bytes > 0 {
      var piece := PieceOf(low, bytes);
      OneAPage(low + piece, bytes - piece, offset + piece);
      PieceTakesPage(low, bytes);
    }
  }

  lemma {:induction false} AllOneAPage(runs: seq<Run>, offset: nat)
    ensures |CutAll(runs, offset)| == AllPages(runs)
  {
    if runs != [] {
      OneAPage(runs[0].low, runs[0].bytes, offset);
      AllOneAPage(runs[1..], offset + runs[0].bytes);
    }
  }

  /** No list that covers a run in order within pages is shorter. */
  lemma {:induction false} CutIsShortest(es: seq<Element>, low: nat, bytes: nat, offset: nat)
    requires Tiles(es, offset, offset + bytes)
    requires forall i :: 0 <= i < |es| ==> es[i].offset >= offset && es[i].address == low + (es[i].offset - offset)
    ensures |Cut(low, bytes, offset)| <= |es|
  {
    OneAPage(low, bytes, offset);
    if es != [] {
      var n := es[0].length;
      TilesAscend(es[1..], offset + n, offset + bytes);
      CutIsShortest(es[1..], low + n, bytes - n, offset + n);
      OneAPage(low + n, bytes - n, offset + n);
    }
  }

  lemma {:induction false} TilesAscend(es: seq<Element>, from: nat, to: nat)
    requires Tiles(es, from, to)
    ensures from <= to && forall i :: 0 <= i < |es| ==> es[i].offset >= from
  {
    if es != [] {
      TilesAscend(es[1..], from + es[0].length, to);
    }
  }

  /** Runs that stand in their pages as the buffer does in its own, and break only where its pages do. */
  predicate PageByPage(runs: seq<Run>, va: nat) {
    runs != [] ==>
      && runs[0].low % PAGE == va % PAGE
      && (|runs| > 1 ==> runs[0].bytes > 0 && (va + runs[0].bytes) % PAGE == 0)
      && PageByPage(runs[1..], va + runs[0].bytes)
  }

  /** Such a chunk needs one element for each page of the buffer, however the runs fall; so a chunk cut to at
      most HCD_SG_ELEMENTS pages always has room. */
  lemma {:induction false} WholePagesFit(runs: seq<Run>, va: nat)
    requires PageByPage(runs, va)
    ensures AllPages(runs) == Pages(va, Total(runs))
  {
    if runs != [] {
      WholePagesFit(runs[1..], va + runs[0].bytes);
      SamePages(runs[0].low, va, runs[0].bytes);
      if |runs| > 1 {
        PagesJoin(va, runs[0].bytes, Total(runs[1..]));
      } else {
        assert runs[1..] == [];
      }
    }
  }

  lemma SamePages(low: nat, va: nat, bytes: nat)
    requires low % PAGE == va % PAGE
    ensures Pages(low, bytes) == Pages(va, bytes)
  {
    var a, b, r := low / PAGE, va / PAGE, low % PAGE;
    assert low == PAGE * a + r && va == PAGE * b + r;
    if bytes > 0 {
      assert (low + bytes - 1) / PAGE == a + (r + bytes - 1) / PAGE;
      assert (va + bytes - 1) / PAGE == b + (r + bytes - 1) / PAGE;
    }
  }

  lemma PagesJoin(va: nat, bytes: nat, more: nat)
    requires bytes > 0 && (va + bytes) % PAGE == 0
    ensures Pages(va, bytes + more) == Pages(va, bytes) + Pages(va + bytes, more)
  {
    var end := (va + bytes) / PAGE;
    assert va + bytes == PAGE * end;
    assert (va + bytes - 1) / PAGE == end - 1;
  }

  // ----- the routine's two loops -----------------------------------------------------------------

  /** One run cut into the list from element `n` on; it fails only for want of room. */
  method CutRun(sg: array<Element>, n0: nat, pa0: nat, bytes: nat, done0: nat) returns (ok: bool, n: nat)
    requires sg.Length == ELEMENTS && n0 <= ELEMENTS
    modifies sg
    ensures n <= ELEMENTS && (ok <==> n0 + |Cut(pa0, bytes, done0)| <= ELEMENTS)
    ensures ok ==> sg[..n] == old(sg[..n0]) + Cut(pa0, bytes, done0)
  {
    var pa: nat, run: nat, done: nat := pa0, bytes, done0;
    ghost var whole := sg[..n0] + Cut(pa0, bytes, done0);
    n := n0;
    while run > 0
      invariant n <= ELEMENTS && sg[..n] + Cut(pa, run, done) == whole
    {
      var piece: nat := PAGE - pa % PAGE;
      if piece > run {
        piece := run;
      }
      if n >= ELEMENTS {
        return false, n;
      }
      ghost var tail := Cut(pa + piece, run - piece, done + piece);
      assert Cut(pa, run, done) == [Element(pa, piece, done)] + tail;
      sg[n] := Element(pa, piece, done);
      assert sg[..n + 1] + tail == sg[..n] + ([Element(pa, piece, done)] + tail);
      n, pa, done, run := n + 1, pa + piece, done + piece, run - piece;
    }
    return true, n;
  }

  /** A chunk maps exactly when every run was usable and the list has room for the pages they touch; then the
      list is the runs cut at page boundaries, in order. */
  method MapChunk(chunk: nat, runs: seq<Run>, sg: array<Element>) returns (ok: bool, n: nat)
    requires Answers(runs, chunk) && sg.Length == ELEMENTS
    modifies sg
    ensures n <= ELEMENTS
    ensures ok <==> AllUsable(runs) && AllPages(runs) <= ELEMENTS
    ensures ok ==> sg[..n] == CutAll(runs, 0) && Tiles(sg[..n], 0, chunk)
  {
    var done: nat, next := 0, runs;              // next: the answers still to come
    n, ok := 0, true;
    AllOneAPage(runs, 0);
    while done < chunk
      invariant done <= chunk && n <= ELEMENTS && ok
      invariant Answers(next, chunk - done) && (AllUsable(runs) <==> AllUsable(next))
      invariant sg[..n] + CutAll(next, done) == CutAll(runs, 0)
      decreases chunk - done
    {
      var r := next[0];
      if r.bytes == 0 || r.high != 0 {
        assert !Usable(next[0]);
        return false, n;
      }
      RunCut(sg[..n], next, done);
      UsableTail(next);
      ok, n := CutRun(sg, n, r.low, r.bytes, done);
      if !ok {
        return;
      }
      next, done := next[1..], done + r.bytes;
    }
    ChunkTiled(runs, chunk);
  }

  /** The pieces of the answers still to come are the first one's and then the rest's. */
  lemma RunCut(got: seq<Element>, next: seq<Run>, done: nat)
    requires next != []
    ensures var first, rest := Cut(next[0].low, next[0].bytes, done), CutAll(next[1..], done + next[0].bytes);
            got + CutAll(next, done) == (got + first) + rest && |got + CutAll(next, done)| >= |got| + |first|
  {
    var first, rest := Cut(next[0].low, next[0].bytes, done), CutAll(next[1..], done + next[0].bytes);
    assert got + (first + rest) == (got + first) + rest;
  }

  lemma UsableTail(runs: seq<Run>)
    requires runs != [] && Usable(runs[0])
    ensures AllUsable(runs) <==> AllUsable(runs[1..])
  {
    if AllUsable(runs[1..]) {
      forall i | 0 <= i < |runs| ensures Usable(runs[i]) {
        assert i > 0 ==> runs[i] == runs[1..][i - 1];
      }
    }
  }

  lemma ChunkTiled(runs: seq<Run>, chunk: nat)
    requires Answers(runs, chunk) && AllUsable(runs)
    ensures Tiles(CutAll(runs, 0), 0, chunk)
  {
    CutAllTiles(runs, 0);
    AnswersTotal(runs, chunk);
  }
}
