/** The output rows of a book by sort: proof PDFs, EPUBs, and all others. What a build adds and what
    pruning takes away is told sort by sort. */
module BuildOutputs {
  import opened BuildProtocol
  import opened Folds

  function ProofPdfs(outs: seq<Output>, bid: int): seq<Output> {
    Kept((o: Output) => o.book == bid && o.format == Pdf && o.kind == Proof, outs)
  }

  function Epubs(outs: seq<Output>, bid: int): seq<Output> {
    Kept((o: Output) => o.book == bid && o.format == Epub, outs)
  }

  // Final PDFs of the book, and every row of other books.
  function OtherRows(outs: seq<Output>, bid: int): seq<Output> {
    Kept((o: Output) => o.book != bid || (o.format != Epub && !(o.format == Pdf && o.kind == Proof)), outs)
  }

  function Newest(n: nat, rows: seq<Output>): seq<Output> {
    if |rows| <= n then rows else rows[|rows| - n..]
  }

  lemma NewestNext(n: nat, rows: seq<Output>, o: Output)
    ensures n > 0 ==> Newest(n, rows + [o]) == Newest(n - 1, rows) + [o]
    ensures Newest(0, rows) == []
  {
  }

  // The rows p holds of are those that pruning looks at, or none of them.
  ghost predicate Looked(p: Output -> bool, book: int, format: Format, kinds: set<Kind>) {
    forall o :: p(o) <==> Prunable(o, book, format, kinds)
  }

  ghost predicate Unseen(p: Output -> bool, book: int, format: Format, kinds: set<Kind>) {
    forall o :: p(o) ==> !Prunable(o, book, format, kinds)
  }

  // What one more row at the end leaves of `keep` for the rows before it.
  function Left(last: Output, book: int, format: Format, kinds: set<Kind>, keep: nat): nat {
    if Prunable(last, book, format, kinds) && keep > 0 then keep - 1 else keep
  }

  lemma PruneNext(front: seq<Output>, last: Output, book: int, format: Format, kinds: set<Kind>, keep: nat)
    ensures var rest := Prune(front, book, format, kinds, Left(last, book, format, kinds, keep));
      Prune(front + [last], book, format, kinds, keep) ==
      if Prunable(last, book, format, kinds) && keep == 0 then rest else rest + [last]
  {
    assert (front + [last])[..|front|] == front;
  }

  lemma LookedNext(
      front: seq<Output>, last: Output, book: int, format: Format, kinds: set<Kind>, keep: nat, p: Output -> bool)
    requires p(last) <==> Prunable(last, book, format, kinds)
    requires var left := Left(last, book, format, kinds, keep);
      Kept(p, Prune(front, book, format, kinds, left)) == Newest(left, Kept(p, front))
    ensures Kept(p, Prune(front + [last], book, format, kinds, keep)) == Newest(keep, Kept(p, front + [last]))
  {
    PruneNext(front, last, book, format, kinds, keep);
    KeptNext(p, front, last);
    KeptNext(p, Prune(front, book, format, kinds, Left(last, book, format, kinds, keep)), last);
    NewestNext(keep, Kept(p, front), last);
  }

  lemma {:induction false} LookedIsPruned(
      outs: seq<Output>, book: int, format: Format, kinds: set<Kind>, keep: nat, p: Output -> bool)
    requires Looked(p, book, format, kinds)
    ensures Kept(p, Prune(outs, book, format, kinds, keep)) == Newest(keep, Kept(p, outs))
  {
    if |outs| > 0 {
      var last, front := outs[|outs| - 1], outs[..|outs| - 1];
      LookedIsPruned(front, book, format, kinds, Left(last, book, format, kinds, keep), p);
      LookedNext(front, last, book, format, kinds, keep, p);
      assert outs == front + [last];
    }
  }

  lemma UnseenNext(
      front: seq<Output>, last: Output, book: int, format: Format, kinds: set<Kind>, keep: nat, p: Output -> bool)
    requires p(last) ==> !Prunable(last, book, format, kinds)
    requires Kept(p, Prune(front, book, format, kinds, Left(last, book, format, kinds, keep))) == Kept(p, front)
    ensures Kept(p, Prune(front + [last], book, format, kinds, keep)) == Kept(p, front + [last])
  {
    PruneNext(front, last, book, format, kinds, keep);
    KeptNext(p, front, last);
    KeptNext(p, Prune(front, book, format, kinds, Left(last, book, format, kinds, keep)), last);
  }

  lemma {:induction false} UnseenStays(
      outs: seq<Output>, book: int, format: Format, kinds: set<Kind>, keep: nat, p: Output -> bool)
    requires Unseen(p, book, format, kinds)
    ensures Kept(p, Prune(outs, book, format, kinds, keep)) == Kept(p, outs)
  {
    if |outs| > 0 {
      var last, front := outs[|outs| - 1], outs[..|outs| - 1];
      UnseenStays(front, book, format, kinds, Left(last, book, format, kinds, keep), p);
      UnseenNext(front, last, book, format, kinds, keep, p);
      assert outs == front + [last];
    }
  }

  lemma RowAdded(outs: seq<Output>, bid: int, o: Output)
    requires o.book == bid
    ensures ProofPdfs(outs + [o], bid) ==
            if o.format == Pdf && o.kind == Proof then ProofPdfs(outs, bid) + [o] else ProofPdfs(outs, bid)
    ensures Epubs(outs + [o], bid) == if o.format == Epub then Epubs(outs, bid) + [o] else Epubs(outs, bid)
    ensures OtherRows(outs + [o], bid) ==
            if o.format != Epub && !(o.format == Pdf && o.kind == Proof) then OtherRows(outs, bid) + [o]
            else OtherRows(outs, bid)
  {
    KeptNext((o: Output) => o.book == bid && o.format == Pdf && o.kind == Proof, outs, o);
    KeptNext((o: Output) => o.book == bid && o.format == Epub, outs, o);
    KeptNext((o: Output) => o.book != bid || (o.format != Epub && !(o.format == Pdf && o.kind == Proof)), outs, o);
  }

  /** Pruning proofs keeps the five newest proof PDFs of the book and touches nothing else. */
  lemma ProofsPruned(outs: seq<Output>, bid: int)
    ensures var left := Prune(outs, bid, Pdf, {Proof}, PROOF_OUTPUTS_KEPT);
      && ProofPdfs(left, bid) == Newest(5, ProofPdfs(outs, bid))
      && Epubs(left, bid) == Epubs(outs, bid) && OtherRows(left, bid) == OtherRows(outs, bid)
  {
    LookedIsPruned(outs, bid, Pdf, {Proof}, 5, (o: Output) => o.book == bid && o.format == Pdf && o.kind == Proof);
    UnseenStays(outs, bid, Pdf, {Proof}, 5, (o: Output) => o.book == bid && o.format == Epub);
    UnseenStays(outs, bid, Pdf, {Proof}, 5,
                (o: Output) => o.book != bid || (o.format != Epub && !(o.format == Pdf && o.kind == Proof)));
  }

  lemma BothKinds(k: Kind)
    ensures k in {Proof, Final}
  {
    assert k == Proof || k == Final;
  }

  /** Pruning EPUBs keeps the ten newest of the book and touches nothing else. */
  lemma EpubsPruned(outs: seq<Output>, bid: int)
    ensures var left := Prune(outs, bid, Epub, {Proof, Final}, EPUB_OUTPUTS_KEPT);
      && Epubs(left, bid) == Newest(10, Epubs(outs, bid))
      && ProofPdfs(left, bid) == ProofPdfs(outs, bid) && OtherRows(left, bid) == OtherRows(outs, bid)
  {
    var kinds := {Proof, Final};
    assert Looked((o: Output) => o.book == bid && o.format == Epub, bid, Epub, kinds) by {
      forall o: Output ensures o.kind in kinds {
        BothKinds(o.kind);
      }
    }
    LookedIsPruned(outs, bid, Epub, kinds, 10, (o: Output) => o.book == bid && o.format == Epub);
    UnseenStays(outs, bid, Epub, kinds, 10, (o: Output) => o.book == bid && o.format == Pdf && o.kind == Proof);
    UnseenStays(outs, bid, Epub, kinds, 10,
                (o: Output) => o.book != bid || (o.format != Epub && !(o.format == Pdf && o.kind == Proof)));
  }
}
