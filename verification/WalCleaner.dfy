/** The log cleaner: a length-hopping scan of each file and the decision which files to delete. */
module WalCleaner {
  import opened Keys
  import opened LittleEndian
  import opened IdSets
  import opened WalRecords

  /** The records a log file holds. */
  ghost function RecordsIn(file: seq<Byte>): seq<Record> {
    match DecodeFrom(file, 0)
    case Records(rs) => rs
    case Failed(_) => []
  }

  /** A file as the log writer leaves it: whole encoded records and nothing else. */
  ghost predicate IsLog(file: seq<Byte>) {
    && file == EncodeAll(RecordsIn(file))
    && forall i :: 0 <= i < |RecordsIn(file)| ==> Fits(RecordsIn(file)[i])
  }

  lemma {:induction false} WrittenLogs(rs: seq<Record>)
    requires forall i :: 0 <= i < |rs| ==> Fits(rs[i])
    ensures IsLog(EncodeAll(rs)) && RecordsIn(EncodeAll(rs)) == rs
  {
    var data := EncodeAll(rs);
    assert data[0..0 + |data|] == data;
    DecodeFromInverts(data, 0, rs);
  }

  ghost predicate Unfinished(file: seq<Byte>, checkpoint: nat) {
    exists i :: 0 <= i < |RecordsIn(file)| && RecordsIn(file)[i].tid > checkpoint
  }

  /** The scan reads only the length and the id of each record and hops over the rest, yet it
      reports an unfinished transaction exactly when some record's id exceeds the checkpoint. */
  method HasUnfinished(file: seq<Byte>, checkpoint: nat) returns (unfinished: bool)
    requires IsLog(file)
    ensures unfinished <==> Unfinished(file, checkpoint)
  {
    hide Encode, DecodeFrom, Number, EncodeAll;
    ghost var rs := RecordsIn(file);
    ghost var i := 0;
    var offset := 0;
    unfinished := false;
    assert rs[0..] == rs && file[0..0 + |file|] == file;
    while offset + 2 < |file|
      invariant 0 <= i <= |rs| && 0 <= offset
      invariant Holds(file, offset, EncodeAll(rs[i..])) && offset + |EncodeAll(rs[i..])| == |file|
      invariant forall j :: 0 <= j < i ==> rs[j].tid <= checkpoint
      decreases |file| - offset
    {
      NextRecord(file, offset, rs[i..]);
      var size := Number(file, offset, 2);
      if Number(file, offset + 2, 8) > checkpoint {
        unfinished := true;
        break;
      }
      assert rs[i..][1..] == rs[i + 1..];
      offset := offset + size;
      i := i + 1;
    }
    if !unfinished {
      LastRecord(rs[i..]);
    }
  }

  lemma {:induction false} NextRecord(file: seq<Byte>, pos: nat, rs: seq<Record>)
    requires forall i :: 0 <= i < |rs| ==> Fits(rs[i])
    requires Holds(file, pos, EncodeAll(rs)) && pos + 2 < pos + |EncodeAll(rs)| == |file|
    ensures rs != [] && pos + Length(rs[0]) <= |file|
    ensures Number(file, pos, 2) == Length(rs[0]) && Number(file, pos + 2, 8) == rs[0].tid
    ensures Holds(file, pos + Length(rs[0]), EncodeAll(rs[1..]))
    ensures pos + Length(rs[0]) + |EncodeAll(rs[1..])| == |file|
  {
    hide Encode, Number;
    HoldsParts(file, pos, Encode(rs[0]), EncodeAll(rs[1..]));
    HeadOf(file, pos, rs[0]);
  }

  lemma {:induction false} LastRecord(rs: seq<Record>)
    ensures rs != [] ==> |EncodeAll(rs)| >= 11
  {
    hide Encode;
    if rs != [] {
      assert |Encode(rs[0])| == Length(rs[0]) >= 11;
    }
  }

  /** The file with the highest sequence number is the one being written. */
  ghost predicate Active(files: map<nat, seq<Byte>>, n: nat) {
    n in files && forall m :: m in files ==> m <= n
  }

  ghost predicate Deletable(files: map<nat, seq<Byte>>, checkpoint: nat, n: nat) {
    n in files && !Active(files, n) && !Unfinished(files[n], checkpoint)
  }

  /** What a cleaning leaves. */
  ghost predicate Cleaned(before: map<nat, seq<Byte>>, checkpoint: nat, after: map<nat, seq<Byte>>) {
    && (forall n :: n in after <==> n in before && !Deletable(before, checkpoint, n))
    && (forall n :: n in after ==> after[n] == before[n])
  }

  /** The loop that collects the files to delete; it stops short of the last one. */
  method Doomed(files: map<nat, seq<Byte>>, checkpoint: nat) returns (doomed: set<nat>)
    requires forall n :: n in files ==> IsLog(files[n])
    ensures forall n :: n in files ==> (n in doomed <==> Deletable(files, checkpoint, n))
  {
    hide IsLog, Unfinished;
    var order := Ascending(files.Keys);
    doomed := {};
    var idx := 0;
    while idx < |order| - 1
      invariant 0 <= idx <= |order|
      invariant |order| > 0 ==> idx <= |order| - 1
      invariant forall n :: n in doomed ==> exists i :: 0 <= i < idx && order[i] == n
      invariant forall i :: 0 <= i < idx ==>
                  (order[i] in doomed <==> !Unfinished(files[order[i]], checkpoint))
    {
      var unfinished := HasUnfinished(files[order[idx]], checkpoint);
      assert forall i :: 0 <= i < idx ==> order[i] != order[idx];
      if !unfinished {
        doomed := doomed + {order[idx]};
      }
      idx := idx + 1;
    }
    forall n | n in files ensures n in doomed <==> Deletable(files, checkpoint, n) {
      var i :| 0 <= i < |order| && order[i] == n;
      var last := order[|order| - 1];
      assert last in files.Keys;
      assert i < |order| - 1 ==> n < last;
      assert Active(files, n) <==> i == |order| - 1 by {
        if i == |order| - 1 {
          forall m | m in files ensures m <= n {
            assert m in files.Keys;
            var j :| 0 <= j < |order| && order[j] == m;
          }
        }
      }
    }
  }

  class WalDirectory {
    var files: map<nat, seq<Byte>>
    var checkpoint: nat

    constructor (files: map<nat, seq<Byte>>, checkpoint: nat)
      ensures this.files == files && this.checkpoint == checkpoint
    {
      this.files := files;
      this.checkpoint := checkpoint;
    }

    /** Deletes exactly the files, other than the one with the highest sequence number, that hold
        no record above the checkpoint. */
    method CleanWALFile()
      requires forall n :: n in files ==> IsLog(files[n])
      modifies this`files
      ensures Cleaned(old(files), checkpoint, files)
    {
      hide IsLog, Deletable;
      var doomed := Doomed(files, checkpoint);
      files := map n | n in files && n !in doomed :: files[n];
    }
  }

  /** Cleaning loses no record above the checkpoint and never the file being written. */
  lemma {:induction false} CleaningKeepsUnfinished(before: map<nat, seq<Byte>>, checkpoint: nat,
                                                   after: map<nat, seq<Byte>>, n: nat, r: Record)
    requires Cleaned(before, checkpoint, after)
    requires n in before && r in RecordsIn(before[n])
    requires r.tid > checkpoint || Active(before, n)
    ensures n in after && r in RecordsIn(after[n])
  {
    if !Active(before, n) {
      var i :| 0 <= i < |RecordsIn(before[n])| && RecordsIn(before[n])[i] == r;
      assert Unfinished(before[n], checkpoint);
    }
  }

  /** And it is thorough: cleaning again with the same checkpoint deletes nothing more. */
  lemma {:induction false} CleaningIsIdempotent(before: map<nat, seq<Byte>>, checkpoint: nat,
                                                after: map<nat, seq<Byte>>, again: map<nat, seq<Byte>>)
    requires Cleaned(before, checkpoint, after) && Cleaned(after, checkpoint, again)
    ensures again == after
  {
    hide Unfinished;
    forall n | n in after ensures !Deletable(after, checkpoint, n) {
      if Active(before, n) {
        assert Active(after, n);
      }
    }
  }
}
