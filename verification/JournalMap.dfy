/** The journal directory is the map from runs to entries that the agent protocol speaks of, as long as run ids are
    safe in file names. */
module JournalMap {
  import opened Runs
  import opened Journals
  import P = AgentProtocol

  /** How runs are named: by ids that are safe in file names, each run by its own. */
  ghost predicate SafeNames(names: RunId -> string) {
    && (forall i :: SafeId(names(i)))
    && (forall i, j :: names(i) == names(j) ==> i == j)
  }

  function EntryOf(e: JournalEntry): P.Entry {
    P.Entry(e.startedAt, e.offer.timeout)
  }

  ghost predicate Records(files: map<string, File>, name: string, e: P.Entry) {
    name in files && files[name].Readable? && files[name].entry.runId == name && EntryOf(files[name].entry) == e
  }

  /** The readable files are those of the journaled runs, and each holds its run's entry; there may be corrupt ones. */
  ghost predicate Represents(files: map<string, File>, journal: map<RunId, P.Entry>, names: RunId -> string) {
    && (forall i {:trigger names(i)} :: i in journal ==> Records(files, names(i), journal[i]))
    && (forall path :: path in files && files[path].Readable? ==> exists i :: i in journal && names(i) == path)
  }

  lemma NoFileNoEntry(files: map<string, File>, journal: map<RunId, P.Entry>, names: RunId -> string, i: RunId)
    requires SafeNames(names) && Represents(files, journal, names)
    ensures i in journal <==> names(i) in files && files[names(i)].Readable?
  {
  }

  lemma RecordedFile(files: map<string, File>, journal: map<RunId, P.Entry>, names: RunId -> string, i: RunId,
                     entry: JournalEntry, timeout: nat, now: Time)
    requires SafeNames(names) && Represents(files, journal, names) && entry.runId == names(i)
    requires EntryOf(entry) == P.Recorded(journal, i, timeout, now)[i]
    ensures Represents(files[names(i) := Readable(entry)], P.Recorded(journal, i, timeout, now), names)
  {
    var files', journal' := files[names(i) := Readable(entry)], P.Recorded(journal, i, timeout, now);
    forall k | k in journal' ensures Records(files', names(k), journal'[k]) {
      if k != i { assert Records(files, names(k), journal[k]); }
    }
    forall path | path in files' && files'[path].Readable? ensures exists k :: k in journal' && names(k) == path {
      if path == names(i) {
        assert i in journal';
      } else {
        var k :| k in journal && names(k) == path;
        assert k in journal';
      }
    }
  }

  /** Journaling an offer is what the protocol's Recorded says: an entry that is there is kept. */
  method Record(files: RunJournal, ghost journal: map<RunId, P.Entry>, names: RunId -> string, i: RunId, timeout: nat,
                now: Time)
    returns (entry: JournalEntry)
    requires SafeNames(names) && files.Valid() && Represents(files.files, journal, names)
    modifies files
    ensures files.Valid() && Represents(files.files, P.Recorded(journal, i, timeout, now), names)
    ensures EntryOf(entry) == P.Recorded(journal, i, timeout, now)[i]
  {
    SafeIdIsItsPath(names(i));
    NoFileNoEntry(files.files, journal, names, i);
    ghost var before := files.files;
    entry := files.Add(Offered(names(i), timeout), now);
    assert i in journal ==> Records(before, names(i), journal[i]);
    RecordedFile(before, journal, names, i, entry, timeout, now);
  }

  /** Removing a run's file removes its entry and no other. */
  method Erase(files: RunJournal, ghost journal: map<RunId, P.Entry>, names: RunId -> string, i: RunId)
    requires SafeNames(names) && files.Valid() && Represents(files.files, journal, names)
    modifies files
    ensures files.Valid() && Represents(files.files, journal - {i}, names)
  {
    SafeIdIsItsPath(names(i));
    ghost var before := files.files;
    files.Remove(names(i));
    forall path | path in files.files && files.files[path].Readable?
      ensures exists k :: k in journal - {i} && names(k) == path
    {
      var k :| k in journal && names(k) == path;
      assert k in journal - {i};
    }
  }

  /** After a restart the journaled runs are read back, each with its entry, and nothing else is. */
  method ReadBack(files: RunJournal, ghost journal: map<RunId, P.Entry>, names: RunId -> string)
    returns (entries: seq<JournalEntry>)
    requires SafeNames(names) && files.Valid() && Represents(files.files, journal, names)
    ensures forall i :: i in journal <==> exists e :: e in entries && e.runId == names(i)
    ensures forall e, i :: e in entries && e.runId == names(i) ==> i in journal && EntryOf(e) == journal[i]
    ensures forall e :: e in entries ==> exists i :: i in journal && e.runId == names(i)
  {
    entries := files.LoadAll();
    forall i | i in journal ensures exists e :: e in entries && e.runId == names(i) {
      assert Records(files.files, names(i), journal[i]);
      assert files.files[names(i)] == Readable(files.files[names(i)].entry);
    }
    forall e | e in entries
      ensures exists i :: i in journal && e.runId == names(i)
      ensures forall i :: e.runId == names(i) ==> i in journal && EntryOf(e) == journal[i]
    {
      var path :| path in files.files && files.files[path] == Readable(e);
      var k :| k in journal && names(k) == path;
      assert Records(files.files, names(k), journal[k]);
    }
  }
}
