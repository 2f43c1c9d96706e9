/** Writes sent in batches to a remote that may land any part of a batch that fails, and what is left of a list
    of writes once some have landed. */
module Batches {
  import opened Selection

  class Remote<W> {
    /** Every write that landed, in order. */
    var landed: seq<W>
    /** How many requests failed. */
    ghost var failures: nat

    /** One request carrying a batch.  When it fails, any of its writes may have been carried out. */
    method Mutate(batch: seq<W>) returns (ok: bool, ghost part: seq<W>)
      modifies this
      ensures failures == old(failures) + if ok then 0 else 1
      ensures landed == old(landed) + part
      ensures ok ==> part == batch
      ensures forall w | w in part :: w in batch
    {
      ok := *;
      part := [];
      failures := failures + if ok then 0 else 1;
      for i := 0 to |batch|
        invariant landed == old(landed) + part && failures == old(failures) + if ok then 0 else 1
        invariant ok ==> part == batch[..i]
        invariant forall w | w in part :: w in batch
      {
        var lands: bool := *;
        if ok || lands {
          landed := landed + [batch[i]];
          part := part + [batch[i]];
        }
      }
    }

    /** One request carrying one write. */
    method MutateOne(w: W) returns (ok: bool, ghost part: seq<W>)
      modifies this
      ensures failures == old(failures) + if ok then 0 else 1
      ensures landed == old(landed) + part
      ensures part == [w] || (part == [] && !ok)
    {
      ok := *;
      part := [];
      failures := failures + if ok then 0 else 1;
      var lands: bool := *;
      if ok || lands {
        landed := landed + [w];
        part := [w];
      }
    }
  }

  /** What the loop over `range(0, len(writes), batch_size)` ends with. */
  datatype Outcome = Wrote(count: nat) | Failed | ZeroBatchSize

  /** `n` whole batches, then any part of the next one. */
  ghost predicate WholeBatchesThenPart<W>(part: seq<W>, writes: seq<W>, batchSize: int, n: nat) {
    var k := n * batchSize;
    && 0 < batchSize && 0 <= k <= |part| && k <= |writes| && part[..k] == writes[..k]
    && forall w | w in part[k..] :: w in writes[k..if k + batchSize <= |writes| then k + batchSize else |writes|]
  }

  method WriteInBatches<W>(remote: Remote<W>, writes: seq<W>, batchSize: int) returns (r: Outcome, ghost part: seq<W>)
    modifies remote
    ensures remote.landed == old(remote.landed) + part
    ensures remote.failures == old(remote.failures) + if r.Failed? then 1 else 0
    ensures r.ZeroBatchSize? <==> batchSize == 0
    ensures r.Wrote? && batchSize > 0 ==> part == writes && r.count == |writes|
    ensures r.Wrote? && batchSize < 0 ==> part == [] && r.count == 0
    ensures r.ZeroBatchSize? ==> part == []
    ensures r.Failed? ==> exists n: nat :: WholeBatchesThenPart(part, writes, batchSize, n)
    ensures forall w | w in part :: w in writes
  {
    part := [];
    if batchSize == 0 {
      return ZeroBatchSize, [];
    }
    var written := 0;
    if batchSize > 0 {
      var start := 0;
      ghost var n: nat := 0;
      while start < |writes|
        invariant 0 <= start == n * batchSize
        invariant written == |part| == if start <= |writes| then start else |writes|
        invariant part == writes[..written] && remote.landed == old(remote.landed) + part
        invariant remote.failures == old(remote.failures)
      {
        var stop := if start + batchSize <= |writes| then start + batchSize else |writes|;
        var ok;
        ghost var landing;
        ok, landing := remote.Mutate(writes[start..stop]);
        part := part + landing;
        if !ok {
          assert WholeBatchesThenPart(part, writes, batchSize, n);
          r := Failed;
          return;
        }
        written := written + |writes[start..stop]|;
        start, n := start + batchSize, n + 1;
      }
    }
    r := Wrote(written);
  }

  // ---- what is left ----

  ghost function Unlanded<W(!new)>(part: seq<W>): W -> bool {
    w => w !in part
  }

  /** The writes of `ws` that are not among those that landed. */
  ghost function Rest<W(!new)>(ws: seq<W>, part: seq<W>): seq<W> {
    Select(ws, Unlanded(part))
  }

  ghost predicate NoRepeat<W(!new)>(ws: seq<W>) {
    forall i, j | 0 <= i < j < |ws| :: ws[i] != ws[j]
  }

  lemma {:induction false} SelectConcat<T(!new)>(s: seq<T>, t: seq<T>, keep: T -> bool)
    ensures Select(s + t, keep) == Select(s, keep) + Select(t, keep)
  {
    if s == [] {
      assert s + t == t;
    } else {
      assert (s + t)[1..] == s[1..] + t;
      SelectConcat(s[1..], t, keep);
    }
  }

  /** What is left after a prefix landed is the suffix, at every prefix, exactly when no write is listed twice. */
  lemma SuffixIffNoRepeat<W(!new)>(ws: seq<W>)
    ensures NoRepeat(ws) <==> forall k | 0 <= k <= |ws| :: Rest(ws, ws[..k]) == ws[k..]
  {
    if NoRepeat(ws) {
      forall k | 0 <= k <= |ws| ensures Rest(ws, ws[..k]) == ws[k..] {
        assert ws == ws[..k] + ws[k..];
        SelectConcat(ws[..k], ws[k..], Unlanded(ws[..k]));
        SelectNone(ws[..k], Unlanded(ws[..k]));
        SelectAll(ws[k..], Unlanded(ws[..k]));
      }
    }
    if forall k | 0 <= k <= |ws| :: Rest(ws, ws[..k]) == ws[k..] {
      forall i, j | 0 <= i < j < |ws| ensures ws[i] != ws[j] {
        assert Rest(ws, ws[..i + 1]) == ws[i + 1..];
        SelectMembers(ws, Unlanded(ws[..i + 1]));
        assert ws[i + 1..][j - i - 1] == ws[j] && ws[j] in ws[i + 1..];
        assert ws[..i + 1][i] == ws[i];
      }
    }
  }

  lemma NothingLeft<W(!new)>(ws: seq<W>)
    ensures Rest(ws, ws) == []
  {
    SelectNone(ws, Unlanded(ws));
  }
}
