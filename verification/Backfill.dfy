/** `runResumableBackfill` of scripts/resumable-backfill.ts, with `apply` and `readPage` that may
    fail at any call, and runs that are resumed from the shared state.

    The pages form one finite chain that is read again from a cursor.  However often a run
    crashes, what has been applied so far is exactly what one uninterrupted run would have
    applied to some front part of the records. */
module Backfill {
  import opened Wrappers

  datatype Key = Key(text: string)
  datatype Record = Record(key: Key, payload: string)
  datatype Cursor = Cursor(text: string)

  /** The chain `readPage` walks: page 0 is read with no cursor, page `k + 1` with `cursors[k]`. */
  datatype Chain = Chain(pages: seq<seq<Record>>, cursors: seq<Cursor>) {
    ghost predicate Valid() {
      && |pages| == |cursors| + 1
      && (forall i, j :: 0 <= i < j < |cursors| ==> cursors[i] != cursors[j])
    }

    ghost predicate Knows(c: Option<Cursor>) {
      c.None? || c.value in cursors
    }

    /** The page a cursor stands for. */
    function Index(c: Option<Cursor>): (i: nat)
      requires Knows(c) && |pages| == |cursors| + 1
      ensures i < |pages|
      ensures c.Some? ==> i > 0 && cursors[i - 1] == c.value
      ensures c.None? ==> i == 0
    {
      if c.None? then 0 else 1 + Find(cursors, c.value)
    }

    /** The cursor returned with page `i`. */
    function Next(i: nat): (c: Option<Cursor>)
      requires i < |pages| && |pages| == |cursors| + 1
      ensures c.None? <==> i + 1 == |pages|
      ensures Knows(c)
    {
      if i + 1 < |pages| then Some(cursors[i]) else None
    }
  }

  function Find(cs: seq<Cursor>, c: Cursor): (i: nat)
    requires c in cs
    ensures i < |cs| && cs[i] == c
  {
    if cs[0] == c then 0 else 1 + Find(cs[1..], c)
  }

  lemma NextIndex(chain: Chain, i: nat)
    requires chain.Valid() && i + 1 < |chain.pages|
    ensures chain.Index(chain.Next(i)) == i + 1
  {
  }

  // ---------------------------------------------------------------- the records in order

  function Flat(pages: seq<seq<Record>>): seq<Record> {
    if pages == [] then [] else Flat(pages[..|pages| - 1]) + pages[|pages| - 1]
  }

  /** All records, page after page. */
  function All(chain: Chain): seq<Record> {
    Flat(chain.pages)
  }

  /** How many records lie before page `i`. */
  function Offset(chain: Chain, i: nat): nat
    requires i <= |chain.pages|
  {
    |Flat(chain.pages[..i])|
  }

  lemma {:induction false} FlatPrefix(pages: seq<seq<Record>>, i: nat)
    requires i <= |pages|
    ensures Flat(pages[..i]) <= Flat(pages)
    decreases |pages|
  {
    if i == |pages| {
      assert pages[..i] == pages;
    } else {
      var front := pages[..|pages| - 1];
      assert pages[..i] == front[..i];
      FlatPrefix(front, i);
    }
  }

  /** Record `j` of page `i` stands at its offset. */
  lemma RecordAt(chain: Chain, i: nat, j: nat)
    requires i < |chain.pages| && j < |chain.pages[i]|
    ensures Offset(chain, i) + j < |All(chain)|
    ensures All(chain)[Offset(chain, i) + j] == chain.pages[i][j]
  {
    NextOffset(chain, i);
    FlatPrefix(chain.pages, i + 1);
    var upTo := Flat(chain.pages[..i + 1]);
    assert chain.pages[..i + 1][..i] == chain.pages[..i];
    assert upTo[Offset(chain, i) + j] == chain.pages[i][j];
  }

  lemma NextOffset(chain: Chain, i: nat)
    requires i < |chain.pages|
    ensures Offset(chain, i + 1) == Offset(chain, i) + |chain.pages[i]|
    ensures Offset(chain, i + 1) <= |All(chain)|
  {
    assert chain.pages[..i + 1][..i] == chain.pages[..i];
    FlatPrefix(chain.pages, i + 1);
  }

  lemma Offsets(chain: Chain)
    ensures Offset(chain, 0) == 0 && Offset(chain, |chain.pages|) == |All(chain)|
  {
    assert chain.pages[..0] == [];
    assert chain.pages[..|chain.pages|] == chain.pages;
  }

  // ---------------------------------------------------------------- what an uninterrupted run applies

  function Keys(rs: seq<Record>): set<Key> {
    set r | r in rs :: r.key
  }

  /** The first record of every key not in `seen`, in order. */
  function Fresh(rs: seq<Record>, seen: set<Key>): seq<Record> {
    if rs == [] then []
    else
      var last := rs[|rs| - 1];
      var front := rs[..|rs| - 1];
      if last.key in seen || last.key in Keys(front) then Fresh(front, seen) else Fresh(front, seen) + [last]
  }

  lemma FreshStep(rs: seq<Record>, r: Record, seen: set<Key>)
    ensures Fresh(rs + [r], seen) ==
      if r.key in seen || r.key in Keys(rs) then Fresh(rs, seen) else Fresh(rs, seen) + [r]
    ensures Keys(rs + [r]) == Keys(rs) + {r.key}
  {
    assert (rs + [r])[..|rs|] == rs;
    assert r in rs + [r];
  }

  lemma {:induction false} FreshKeys(rs: seq<Record>, seen: set<Key>)
    ensures Keys(Fresh(rs, seen)) == Keys(rs) - seen
  {
    if rs != [] {
      var last, front := rs[|rs| - 1], rs[..|rs| - 1];
      FreshKeys(front, seen);
      assert rs == front + [last];
      hide Keys, Fresh;
      FreshStep(front, last, seen);
      KeysStep(Fresh(front, seen), last);
    } else {
      assert Keys(rs) == {};
    }
  }

  lemma KeysStep(rs: seq<Record>, r: Record)
    ensures Keys(rs + [r]) == Keys(rs) + {r.key}
  {
    assert r in rs + [r];
  }

  predicate DistinctKeys(rs: seq<Record>) {
    forall i, j :: 0 <= i < j < |rs| ==> rs[i].key != rs[j].key
  }

  lemma DistinctStep(rs: seq<Record>, r: Record)
    requires DistinctKeys(rs) && r.key !in Keys(rs)
    ensures DistinctKeys(rs + [r])
  {
    forall i | 0 <= i < |rs| ensures rs[i].key != r.key {
      assert rs[i] in rs;
    }
  }

  /** Every key is applied at most once, none that was seen before, and all others are. */
  lemma {:induction false} FreshExact(rs: seq<Record>, seen: set<Key>)
    ensures Keys(Fresh(rs, seen)) == Keys(rs) - seen
    ensures DistinctKeys(Fresh(rs, seen))
  {
    FreshKeys(rs, seen);
    if rs != [] {
      var last, front := rs[|rs| - 1], rs[..|rs| - 1];
      FreshExact(front, seen);
      assert rs == front + [last];
      hide Keys, Fresh, DistinctKeys;
      FreshStep(front, last, seen);
      if last.key !in Keys(front) {
        DistinctStep(Fresh(front, seen), last);
      }
    }
  }

  // ---------------------------------------------------------------- the shared state

  class State {
    var nextCursor: Option<Cursor>
    var processed: nat
    var seen: set<Key>
    /** The records whose `apply` returned, over all runs so far. */
    ghost var applied: seq<Record>
    /** How many records, from the front, have been dealt with at some time. */
    ghost var reached: nat
    ghost const seenBefore: set<Key>

    constructor (seen0: set<Key>)
      ensures nextCursor == None && processed == 0 && seen == seen0 && seenBefore == seen0
      ensures applied == [] && reached == 0
    {
      nextCursor, processed, seen := None, 0, seen0;
      applied, reached, seenBefore := [], 0, seen0;
    }

    ghost predicate Sound(chain: Chain)
      reads this
    {
      && chain.Valid() && chain.Knows(nextCursor)
      && Progressed(chain, chain.Index(nextCursor), reached, applied, seen, processed, seenBefore)
    }
  }

  /** The pages before page `i` are done, the first `reached` records are, and exactly their
      fresh ones have been applied, once each and in order. */
  ghost predicate Progressed(
    chain: Chain, i: nat, reached: nat, applied: seq<Record>, seen: set<Key>, processed: nat, seenBefore: set<Key>)
  {
    && i <= |chain.pages| && Offset(chain, i) <= reached <= |All(chain)|
    && applied == Fresh(All(chain)[..reached], seenBefore)
    && seen == seenBefore + Keys(All(chain)[..reached])
    && processed == |applied|
  }

  /** A record that was seen is skipped; one that was not is new, and is the next to apply. */
  lemma HandleRecord(chain: Chain, pos: nat, reached: nat, seenBefore: set<Key>)
    requires pos <= reached <= |All(chain)| && pos < |All(chain)|
    ensures var all, r := All(chain), All(chain)[pos];
      var seen := seenBefore + Keys(all[..reached]);
      && (r.key !in seen ==>
            && pos == reached
            && Fresh(all[..reached + 1], seenBefore) == Fresh(all[..reached], seenBefore) + [r]
            && seenBefore + Keys(all[..reached + 1]) == seen + {r.key})
      && (r.key in seen && pos == reached ==>
            && Fresh(all[..reached + 1], seenBefore) == Fresh(all[..reached], seenBefore)
            && seenBefore + Keys(all[..reached + 1]) == seen)
  {
    var all, r := All(chain), All(chain)[pos];
    if pos == reached {
      assert all[..reached + 1] == all[..reached] + [r];
      FreshStep(all[..reached], r, seenBefore);
    } else {
      assert r in all[..reached];
    }
  }

  /** One page: the loop over its records.  `calls` is how many more calls of `readPage` or
      `apply` succeed before one throws. */
  method ApplyPage(state: State, chain: Chain, i: nat, calls: nat) returns (ok: bool, left: nat)
    requires state.Sound(chain) && i < |chain.pages|
    requires Offset(chain, i) <= state.reached
    modifies state`processed, state`seen, state`applied, state`reached
    ensures state.Sound(chain)
    ensures old(state.reached) <= state.reached
    ensures old(state.applied) <= state.applied
    ensures ok ==> Offset(chain, i + 1) <= state.reached && left <= calls && calls - left <= |chain.pages[i]|
    ensures !ok ==> calls < |chain.pages[i]|
  {
    hide Fresh, Keys, Flat, Find;
    var records := chain.pages[i];
    left := calls;
    ghost var start := Offset(chain, i);
    NextOffset(chain, i);
    for j := 0 to |records|
      invariant state.Sound(chain)
      invariant old(state.reached) <= state.reached && start + j <= state.reached
      invariant old(state.applied) <= state.applied
      invariant 0 <= left <= calls && calls - left <= j
    {
      var record := records[j];
      RecordAt(chain, i, j);
      HandleRecord(chain, start + j, state.reached, state.seenBefore);
      if record.key in state.seen {
        if start + j == state.reached {
          state.reached := state.reached + 1;
        }
        continue;
      }
      if left == 0 {
        return false, 0;
      }
      left := left - 1;
      state.seen := state.seen + {record.key};
      state.processed := state.processed + 1;
      state.applied := state.applied + [record];
      state.reached := state.reached + 1;
    }
    ok := true;
  }

  /** `runResumableBackfill(state, readPage, keyOf, apply)`.  A run whose `calls` are used up
      has crashed; the state it leaves can be resumed.  A run that is given enough calls
      completes, and a run after completion applies nothing. */
  method RunResumableBackfill(state: State, chain: Chain, calls: nat) returns (completed: bool)
    requires state.Sound(chain)
    modifies state
    ensures state.Sound(chain)
    ensures old(state.reached) <= state.reached && old(state.applied) <= state.applied
    ensures completed ==> state.reached == |All(chain)| && state.nextCursor.None?
    ensures !completed ==> calls < |chain.pages| + |All(chain)|
    ensures old(state.reached) == |All(chain)| ==> state.applied == old(state.applied) && state.seen == old(state.seen)
  {
    hide Fresh, Keys, Flat, Find;
    var cursor := state.nextCursor;
    var left := calls;
    ghost var first := chain.Index(cursor);
    Offsets(chain);
    while true
      invariant state.Sound(chain) && state.nextCursor == cursor
      invariant old(state.reached) <= state.reached && old(state.applied) <= state.applied
      invariant first <= chain.Index(cursor)
      invariant 0 <= left
      invariant calls - left <= chain.Index(cursor) + Offset(chain, chain.Index(cursor))
      decreases |chain.pages| - chain.Index(cursor)
    {
      ghost var i := chain.Index(cursor);
      NextOffset(chain, i);
      if left == 0 {
        return false;
      }
      left := left - 1;
      var page := chain.Index(cursor);
      var ok, rest := ApplyPage(state, chain, page, left);
      if !ok {
        return false;
      }
      left := rest;
      cursor := chain.Next(page);
      if cursor.None? {
        state.nextCursor := cursor;
        return true;
      }
      NextIndex(chain, page);
      state.nextCursor := cursor;
    }
  }

  /** Any sequence of runs, each crashing wherever its calls are used up. */
  method ResumeRepeatedly(state: State, chain: Chain, runs: seq<nat>) returns (completions: nat)
    requires state.Sound(chain)
    modifies state
    ensures state.Sound(chain)
    ensures old(state.applied) <= state.applied
    ensures completions > 0 ==> state.reached == |All(chain)|
    ensures (exists k :: 0 <= k < |runs| && runs[k] >= |chain.pages| + |All(chain)|) ==> completions > 0
  {
    hide State.Sound, Flat;
    completions := 0;
    for k := 0 to |runs|
      invariant state.Sound(chain)
      invariant old(state.applied) <= state.applied
      invariant completions > 0 ==> state.reached == |All(chain)|
      invariant forall n :: 0 <= n < k && runs[n] >= |chain.pages| + |All(chain)| ==> completions > 0
    {
      var completed := RunResumableBackfill(state, chain, runs[k]);
      ReachedAtMost(state, chain);
      if completed {
        completions := completions + 1;
      }
    }
  }

  lemma ReachedAtMost(state: State, chain: Chain)
    requires state.Sound(chain)
    ensures state.reached <= |All(chain)|
  {
  }

  // ---------------------------------------------------------------- what soundness promises

  lemma KeysMonotone(a: seq<Record>, b: seq<Record>)
    requires a <= b
    ensures Keys(a) <= Keys(b)
  {
    forall r | r in a ensures r in b {
      var k :| 0 <= k < |a| && a[k] == r;
      assert b[k] == r;
    }
  }

  /** Wherever the runs have got to: no key was applied twice, none that was seen from the
      start, `processed` counts exactly the applied keys, `seen` is the old keys and theirs,
      and every key of every page before the saved cursor is in it. */
  lemma SoundPromises(
    chain: Chain, i: nat, reached: nat, applied: seq<Record>, seen: set<Key>, processed: nat, seenBefore: set<Key>)
    requires Progressed(chain, i, reached, applied, seen, processed, seenBefore)
    ensures DistinctKeys(applied)
    ensures Keys(applied) !! seenBefore && seen == seenBefore + Keys(applied)
    ensures processed == |applied|
    ensures Keys(Flat(chain.pages[..i])) <= seen
    ensures reached == |All(chain)| ==> Keys(applied) == Keys(All(chain)) - seenBefore
    ensures reached == |All(chain)| ==> applied == Fresh(All(chain), seenBefore)
  {
    hide Fresh, Keys, Flat;
    var all := All(chain);
    FreshExact(all[..reached], seenBefore);
    FlatPrefix(chain.pages, i);
    KeysMonotone(Flat(chain.pages[..i]), all[..reached]);
    if reached == |all| {
      assert all[..reached] == all;
    }
  }
}
