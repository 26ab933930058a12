/** When the sink hands its buffers over: which ones a flush empties, and when an added entry fills one. */
module LogFlush {
  import opened LogSinks

  /** The keys that a flush chooses, by what the keys and their buffers show. */
  lemma {:induction false} ChosenAre(s: Sink, keys: seq<Key>, op: Op, key: Key)
    requires forall k :: k in keys ==> k in s.buffers
    ensures op.FlushRun? ==> (key in Chosen(s, keys, op) <==> key in keys && key.run == op.run)
    ensures op.FlushEverything? ==> (key in Chosen(s, keys, op) <==> key in keys)
    ensures op.FlushExpired? ==>
      (key in Chosen(s, keys, op) <==> key in keys && op.at - s.buffers[key].firstAt >= 2_000_000)
  {
    if keys != [] {
      assert forall k :: k in keys[..|keys|-1] ==> k in keys;
      ChosenAre(s, keys[..|keys|-1], op, key);
    }
  }

  /** Flushing some keys takes their buffers away and leaves the others as they are. */
  lemma {:induction false} FlushedAllBuffers(s: Sink, keys: seq<Key>, key: Key)
    ensures key in FlushedAll(s, keys).buffers <==> key in s.buffers && key !in keys
    ensures key in FlushedAll(s, keys).buffers ==> FlushedAll(s, keys).buffers[key] == s.buffers[key]
  {
    if keys != [] {
      FlushedAllBuffers(s, keys[..|keys|-1], key);
      assert keys == keys[..|keys|-1] + [keys[|keys|-1]];
    }
  }

  /** What the flush of the chosen buffers means for one run and kind: its entries are handed over, or it is as
      before. */
  ghost predicate Shipped(s: Sink, s': Sink, key: Key) {
    key !in s'.buffers && Pending(s', key) == [] && Handed(s'.acts, key) == Handed(s.acts, key) + Pending(s, key)
  }

  ghost predicate Untouched(s: Sink, s': Sink, key: Key) {
    && (key in s'.buffers <==> key in s.buffers)
    && (key in s.buffers ==> s'.buffers[key] == s.buffers[key])
    && Handed(s'.acts, key) == Handed(s.acts, key)
  }

  lemma FlushMeans(s: Sink, op: Op, key: Key)
    requires Ok(s) && (op.FlushRun? || op.FlushEverything? || op.FlushExpired?)
    ensures key in Chosen(s, s.keys, op) ==> Shipped(s, Next(s, op), key)
    ensures key !in Chosen(s, s.keys, op) ==> Untouched(s, Next(s, op), key)
  {
    var chosen := Chosen(s, s.keys, op);
    FlushedAllBuffers(s, chosen, key);
    FlushAllMoves(s, chosen, key);
    SameRest(Handed(s.acts, key), Handed(Next(s, op).acts, key), Pending(s, key));
  }

  lemma SameRest(a: seq<Entry>, b: seq<Entry>, rest: seq<Entry>)
    ensures a + rest == b + rest ==> a == b
  {
    if a + rest == b + rest {
      assert |a| == |b|;
      assert a == (a + rest)[..|a|] == (b + rest)[..|b|] == b;
    }
  }

  /** The flush of a run hands over all that waits for that run, of either kind, and touches no other run. */
  lemma FlushRunEmpties(s: Sink, run: string, key: Key)
    requires Ok(s)
    ensures key.run == run ==> Shipped(s, Next(s, FlushRun(run)), key)
    ensures key.run != run ==> Untouched(s, Next(s, FlushRun(run)), key)
  {
    ChosenAre(s, s.keys, FlushRun(run), key);
    FlushMeans(s, FlushRun(run), key);
    if key !in s.buffers { FlushOfNothing(s, FlushRun(run), key); }
  }

  /** A key without a buffer has nothing to be handed over. */
  lemma FlushOfNothing(s: Sink, op: Op, key: Key)
    requires Ok(s) && (op.FlushRun? || op.FlushEverything? || op.FlushExpired?) && key !in s.buffers
    ensures Shipped(s, Next(s, op), key)
  {
    ChosenAre(s, s.keys, op, key);
    FlushMeans(s, op, key);
    assert Handed(s.acts, key) + [] == Handed(s.acts, key);
  }

  /** The flush of everything leaves nothing waiting. */
  lemma FlushEverythingEmpties(s: Sink, key: Key)
    requires Ok(s)
    ensures Shipped(s, Next(s, FlushEverything), key)
  {
    ChosenAre(s, s.keys, FlushEverything, key);
    FlushMeans(s, FlushEverything, key);
    if key !in s.buffers { FlushOfNothing(s, FlushEverything, key); }
  }

  /** The timer hands over exactly the buffers whose first entry has waited for two seconds. */
  lemma FlushExpiredEmpties(s: Sink, at: Time, key: Key)
    requires Ok(s) && key in s.buffers
    ensures at - s.buffers[key].firstAt >= 2_000_000 ==> Shipped(s, Next(s, FlushExpired(at)), key)
    ensures at - s.buffers[key].firstAt < 2_000_000 ==> Untouched(s, Next(s, FlushExpired(at)), key)
  {
    ChosenAre(s, s.keys, FlushExpired(at), key);
    FlushMeans(s, FlushExpired(at), key);
  }

  /** An added entry waits with those before it, since the first of them, unless it is the hundredth or brings their
      text to 64 KiB: then all of them are handed over. Other runs and kinds are not touched. */
  lemma AddShipsExactly(s: Sink, key: Key, e: Entry, now: Time, other: Key)
    requires Ok(s) && other != key
    ensures var s' := Next(s, Emit(key, e, now)); var all := Pending(s, key) + [e];
      && (|all| >= 100 || Bytes(all) >= 65_536 ==>
            key !in s'.buffers && Handed(s'.acts, key) == Handed(s.acts, key) + all)
      && (|all| < 100 && Bytes(all) < 65_536 ==>
            && key in s'.buffers && s'.buffers[key].entries == all && s'.acts == s.acts
            && s'.buffers[key].firstAt == if key in s.buffers then s.buffers[key].firstAt else now)
      && Untouched(s, s', other)
  {
    var before := Pending(s, key);
    BytesSnoc(before, e);
    if key !in s.buffers { assert Bytes([]) == 0; }
    AddMoves(s, key, e, now, key);
    AddMoves(s, key, e, now, other);
    SameRest(Handed(s.acts, other), Handed(Added(s, key, e, now).acts, other), Pending(s, other));
    assert Handed(s.acts, key) + (before + [e]) == (Handed(s.acts, key) + before) + [e];
  }

  // ---------------------------------------------------------------- in which order

  /** The chosen keys stand in the order of the buffer dictionary. */
  lemma {:induction false} ChosenInOrder(s: Sink, keys: seq<Key>, op: Op) returns (at: seq<nat>)
    ensures |at| == |Chosen(s, keys, op)|
    ensures forall j :: 0 <= j < |at| ==> at[j] < |keys| && keys[at[j]] == Chosen(s, keys, op)[j]
    ensures forall j, k :: 0 <= j < k < |at| ==> at[j] < at[k]
  {
    at := [];
    if keys != [] {
      at := ChosenInOrder(s, keys[..|keys|-1], op);
      if |Chosen(s, keys, op)| > |at| { at := at + [|keys| - 1]; }
    }
  }

  /** Act k hands over all that waited under the key. */
  ghost predicate HandsOver(s: Sink, acts: seq<Act>, k: nat, key: Key) {
    k < |acts| && acts[k].Sent? && acts[k].batch.key == key && acts[k].batch.entries == Pending(s, key)
  }

  lemma FlushOne(s: Sink, before: Sink, key: Key)
    requires key in before.buffers && before.buffers[key].entries != [] && Pending(before, key) == Pending(s, key)
    ensures var acts := Flushed(before, key).acts;
      |acts| == |before.acts| + 1 && before.acts <= acts && HandsOver(s, acts, |before.acts|, key)
  {
  }

  /** One batch for each key, in that order, with all that waited under it. */
  lemma {:induction false} FlushInOrder(s: Sink, keys: seq<Key>)
    requires Apart(keys) && forall key :: key in keys ==> key in s.buffers && s.buffers[key].entries != []
    ensures var acts := FlushedAll(s, keys).acts;
      && |acts| == |s.acts| + |keys| && s.acts <= acts
      && forall j :: 0 <= j < |keys| ==> HandsOver(s, acts, |s.acts| + j, keys[j])
  {
    if keys != [] {
      var front, key := keys[..|keys|-1], keys[|keys|-1];
      assert key in keys && forall k :: k in front ==> k in keys;
      FlushInOrder(s, front);
      FlushedAllBuffers(s, front, key);
      assert key !in front;
      FlushOne(s, FlushedAll(s, front), key);
    }
  }
}
