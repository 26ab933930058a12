/** The agent's journal: one file per run in a directory, and when that directory is a map from run ids. */
module Journals {
  import opened Wrappers
  import opened Runs

  /** What the journal keeps of an offer. */
  datatype Offered = Offered(runId: string, timeout: nat)

  datatype JournalEntry = JournalEntry(runId: string, offer: Offered, startedAt: Time)

  /** A file that cannot be parsed is logged and passed over. */
  datatype File = Readable(entry: JournalEntry) | Corrupt

  predicate Safe(c: char) {
    'a' <= c <= 'z' || 'A' <= c <= 'Z' || '0' <= c <= '9' || c == '-' || c == '_'
  }

  /** The file of a run: characters that are not safe in a file name are dropped. */
  function PathOf(runId: string): (path: string)
    ensures forall c :: c in path ==> Safe(c)
  {
    if runId == [] then [] else if Safe(runId[0]) then [runId[0]] + PathOf(runId[1..]) else PathOf(runId[1..])
  }

  predicate SafeId(runId: string) {
    forall c :: c in runId ==> Safe(c)
  }

  /** By their codes: the letters and digits of ASCII, the hyphen and the underscore. */
  lemma SafeIs(c: char)
    ensures Safe(c) <==>
      48 <= c as int <= 57 || 65 <= c as int <= 90 || 97 <= c as int <= 122 || c as int == 45 || c as int == 95
  {
  }

  lemma {:induction false} SafeIdIsItsPath(runId: string)
    ensures PathOf(runId) == runId <==> SafeId(runId)
    ensures |PathOf(runId)| <= |runId|
  {
    if runId != [] {
      SafeIdIsItsPath(runId[1..]);
      assert runId == [runId[0]] + runId[1..];
      assert forall c :: c in runId <==> c == runId[0] || c in runId[1..];
    }
  }

  /** Runs with safe ids, such as UUIDs, never share a file. Others may: the path drops what is not safe. */
  lemma SafeIdsDoNotCollide(a: string, b: string)
    requires SafeId(a) && SafeId(b)
    ensures PathOf(a) == PathOf(b) <==> a == b
  {
    SafeIdIsItsPath(a);
    SafeIdIsItsPath(b);
  }

  lemma UnsafeIdsCanCollide()
    ensures "a/b" != "ab" && PathOf("a/b") == PathOf("ab")
  {
  }

  function Insert(entries: seq<JournalEntry>, e: JournalEntry): (r: seq<JournalEntry>)
    ensures |r| == |entries| + 1
    ensures multiset(r) == multiset(entries) + multiset{e}
  {
    if entries == [] || entries[|entries|-1].startedAt <= e.startedAt then entries + [e]
    else
      assert entries == entries[..|entries|-1] + [entries[|entries|-1]];
      Insert(entries[..|entries|-1], e) + [entries[|entries|-1]]
  }

  predicate OldestFirst(entries: seq<JournalEntry>) {
    forall j, k :: 0 <= j < k < |entries| ==> entries[j].startedAt <= entries[k].startedAt
  }

  lemma {:induction false} InsertKeepsOrder(entries: seq<JournalEntry>, e: JournalEntry)
    requires OldestFirst(entries)
    ensures OldestFirst(Insert(entries, e))
  {
    if entries != [] && entries[|entries|-1].startedAt > e.startedAt {
      var front, last := entries[..|entries|-1], entries[|entries|-1];
      InsertKeepsOrder(front, e);
      forall x | x in Insert(front, e) ensures x.startedAt <= last.startedAt {
        InsertAdds(front, e);
      }
    }
  }

  class RunJournal {
    var files: map<string, File>

    constructor ()
      ensures files == map[]
    {
      files := map[];
    }

    /** Every readable file records a run that belongs to it. */
    predicate Valid()
      reads this
    {
      forall path :: path in files && files[path].Readable? ==> PathOf(files[path].entry.runId) == path
    }

    function Get(runId: string): (entry: Option<JournalEntry>)
      reads this
    {
      var path := PathOf(runId);
      if path in files && files[path].Readable? then Some(files[path].entry) else None
    }

    /** Journals an offer unless a readable entry is there, which is then returned as it is. */
    method Add(offer: Offered, now: Time) returns (entry: JournalEntry)
      requires Valid()
      modifies this
      ensures Valid() && Get(offer.runId) == Some(entry)
      ensures entry == if old(Get(offer.runId)).Some? then old(Get(offer.runId)).value
                       else JournalEntry(offer.runId, offer, now)
      ensures files == old(files)[PathOf(offer.runId) := Readable(entry)]
    {
      var existing := Get(offer.runId);
      if existing.Some? {
        return existing.value;
      }
      entry := JournalEntry(offer.runId, offer, now);
      files := files[PathOf(offer.runId) := Readable(entry)];
    }

    method Remove(runId: string)
      requires Valid()
      modifies this
      ensures Valid() && Get(runId) == None && files == old(files) - {PathOf(runId)}
    {
      files := files - {PathOf(runId)};
    }

    /** All readable entries, oldest first and each once. */
    method LoadAll() returns (entries: seq<JournalEntry>)
      requires Valid()
      ensures OldestFirst(entries) && NoRepeats(entries)
      ensures forall e :: e in entries <==> exists path :: path in files && files[path] == Readable(e)
    {
      entries := [];
      var left := files.Keys;
      while left != {}
        invariant left <= files.Keys
        invariant OldestFirst(entries) && NoRepeats(entries)
        invariant forall e :: e in entries <==>
          exists path :: path in files && path !in left && files[path] == Readable(e)
        decreases |left|
      {
        var path :| path in left;
        left := left - {path};
        if files[path].Readable? {
          var e := files[path].entry;
          InsertKeepsOrder(entries, e);
          InsertKeepsApart(entries, e);
          InsertAdds(entries, e);
          entries := Insert(entries, e);
        }
      }
    }

    method RunIds() returns (ids: set<string>)
      requires Valid()
      ensures forall id :: id in ids <==>
        exists path :: path in files && files[path].Readable? && files[path].entry.runId == id
    {
      var entries := LoadAll();
      ids := set e | e in entries :: e.runId;
    }
  }

  predicate NoRepeats(entries: seq<JournalEntry>) {
    forall j, k :: 0 <= j < k < |entries| ==> entries[j] != entries[k]
  }

  lemma InsertAdds(entries: seq<JournalEntry>, e: JournalEntry)
    ensures forall x :: x in Insert(entries, e) <==> x == e || x in entries
  {
  }

  lemma {:induction false} InsertKeepsApart(entries: seq<JournalEntry>, e: JournalEntry)
    requires NoRepeats(entries) && e !in entries
    ensures NoRepeats(Insert(entries, e))
  {
    if entries != [] && entries[|entries|-1].startedAt > e.startedAt {
      var front, last := entries[..|entries|-1], entries[|entries|-1];
      InsertKeepsApart(front, e);
      InsertAdds(front, e);
      assert last !in Insert(front, e);
    }
  }
}
