/** The recipient settings store: an in-memory cache of subscriber
    destinations, loaded lazily from a settings file and written back whole
    after every change. The file is abstract (absent, holding a list, or
    unreadable); JSON encoding is not modelled. */
module Settings {

  datatype Option<T> = None | Some(value: T)

  /** Why an operation of the store failed. */
  datatype Error = LoadFailed | FlushFailed

  datatype Result<T> = Ok(value: T) | Err(error: Error)

  /** A forwarding destination: a chat and, optionally, a thread within it.
      Equality is structural, as Rust's derived `PartialEq` for `Recepient`. */
  datatype Recepient = Recepient(chatId: int, threadId: Option<int>)

  /** The settings file as the store sees it. `Malformed` stands for any file
      that exists but cannot be opened or decoded. */
  datatype Disk = Absent | Valid(recepients: seq<Recepient>) | Malformed

  /** What the file system does when the store rewrites the file: the file
      is written; it cannot be created at all (left as it was); it is
      created (truncated) and then a write the serialiser issues fails part
      way, which the serialiser reports; or it is created (truncated), the
      serialiser fills the write buffer without error, and writing the
      buffered bytes out fails when the buffer is dropped, which reports
      nothing. */
  datatype WriteOutcome = Written | CannotCreate | WriteFailed | DropFailed

  predicate NoDuplicates<T(==)>(s: seq<T>)
  {
    forall i, j :: 0 <= i < j < |s| ==> s[i] != s[j]
  }

  /** What a first load produces from the file: its list, an empty list when
      there is no file, or an error. */
  function LoadFrom(disk: Disk): Result<seq<Recepient>>
  {
    match disk
    case Absent => Ok([])
    case Valid(s) => Ok(s)
    case Malformed => Err(LoadFailed)
  }

  /** The cache went from (`loaded0`, `rs0`) to (`loaded1`, `rs1`) by at
      most one successful load from `disk`: a loaded cache stays as it is,
      and an unloaded one either stays or takes what the file yields. */
  predicate LoadStep(loaded0: bool, rs0: seq<Recepient>, disk: Disk, loaded1: bool, rs1: seq<Recepient>)
  {
    if loaded0 then loaded1 && rs1 == rs0
    else if loaded1 then LoadFrom(disk) == Ok(rs1)
    else rs1 == rs0
  }

  /** The deduplicating add: append `r` unless an equal entry is present. */
  function Added(s: seq<Recepient>, r: Recepient): seq<Recepient>
  {
    if r in s then s else s + [r]
  }

  /** The filter of remove: every entry equal to `r` dropped, the others kept
      in order. */
  function Removed(s: seq<Recepient>, r: Recepient): (t: seq<Recepient>)
    ensures |t| <= |s|
    ensures forall x :: x in t ==> x in s && x != r
  {
    if s == [] then []
    else (if s[0] == r then [] else [s[0]]) + Removed(s[1..], r)
  }

  lemma AddedSpec(s: seq<Recepient>, r: Recepient)
    ensures r in s ==> Added(s, r) == s
    ensures r !in s ==> Added(s, r) == s + [r]
    ensures r in Added(s, r)
    ensures NoDuplicates(s) ==> NoDuplicates(Added(s, r))
  {
  }

  /** Adding the same recipient twice is the same as adding it once. */
  lemma AddedIdempotent(s: seq<Recepient>, r: Recepient)
    ensures Added(Added(s, r), r) == Added(s, r)
  {
  }

  /** Remove deletes every copy of `r` and keeps every other entry as many
      times as it occurred. */
  lemma {:induction false} RemovedCount(s: seq<Recepient>, r: Recepient, x: Recepient)
    ensures multiset(Removed(s, r))[x] == if x == r then 0 else multiset(s)[x]
  {
    if s != [] {
      RemovedCount(s[1..], r, x);
      assert s == [s[0]] + s[1..];
      assert multiset(s) == multiset([s[0]]) + multiset(s[1..]);
    }
  }

  /** Remove works entry by entry: it distributes over concatenation, so the
      entries it keeps stay in their relative order. */
  lemma {:induction false} RemovedConcat(a: seq<Recepient>, b: seq<Recepient>, r: Recepient)
    ensures Removed(a + b, r) == Removed(a, r) + Removed(b, r)
  {
    if a == [] {
      assert a + b == b;
    } else {
      assert (a + b)[0] == a[0];
      assert (a + b)[1..] == a[1..] + b;
      RemovedConcat(a[1..], b, r);
    }
  }

  /** Removing a recipient that is not there changes nothing. */
  lemma {:induction false} RemovedAbsent(s: seq<Recepient>, r: Recepient)
    requires r !in s
    ensures Removed(s, r) == s
  {
    if s != [] {
      RemovedAbsent(s[1..], r);
    }
  }

  /** Remove keeps a list free of duplicates. */
  lemma {:induction false} RemovedNoDuplicates(s: seq<Recepient>, r: Recepient)
    requires NoDuplicates(s)
    ensures NoDuplicates(Removed(s, r))
  {
    if s != [] {
      assert NoDuplicates(s[1..]) by {
        forall i, j | 0 <= i < j < |s[1..]| ensures s[1..][i] != s[1..][j] {
          assert s[1..][i] == s[i + 1] && s[1..][j] == s[j + 1];
        }
      }
      RemovedNoDuplicates(s[1..], r);
      var tail := Removed(s[1..], r);
      var t := (if s[0] == r then [] else [s[0]]) + tail;
      assert s[0] !in s[1..] by {
        forall k | 0 <= k < |s[1..]| ensures s[1..][k] != s[0] {
          assert s[1..][k] == s[k + 1];
        }
      }
      forall i, j | 0 <= i < j < |t| ensures t[i] != t[j] {
        if s[0] != r && i == 0 {
          assert t[j] == tail[j - 1] && tail[j - 1] in tail;
        }
      }
    }
  }

  /** The store: the `loaded` flag and recipient list of the cache, and the
      settings file they are persisted to. */
  class Accessor {
    var loaded: bool
    var recepients: seq<Recepient>
    var disk: Disk

    /** A new store over a settings file: not loaded, with an empty list. */
    constructor (disk: Disk)
      ensures !loaded && recepients == [] && this.disk == disk
    {
      loaded := false;
      recepients := [];
      this.disk := disk;
    }

    /** Idempotent load: once loaded nothing happens; otherwise the list
        becomes the file's content (empty when there is no file) and the
        store is marked loaded, or on an unreadable file nothing changes and
        the error is returned. */
    method Load() returns (result: Result<()>)
      modifies this`loaded, this`recepients
      ensures old(loaded) ==> result == Ok(()) && loaded && recepients == old(recepients)
      ensures !old(loaded) && LoadFrom(disk).Ok? ==>
        result == Ok(()) && loaded && recepients == LoadFrom(disk).value
      ensures !old(loaded) && LoadFrom(disk).Err? ==>
        result == Err(LoadFailed) && !loaded && recepients == old(recepients)
    {
      if loaded {
        return Ok(());
      }
      if disk.Malformed? {
        return Err(LoadFailed);
      }
      recepients := if disk.Valid? then disk.recepients else [];
      loaded := true;
      result := Ok(());
    }

    /** Loads if needed and returns a copy of the cached list. */
    method GetSettings() returns (result: Result<seq<Recepient>>)
      modifies this`loaded, this`recepients
      ensures result == if old(loaded) then Ok(old(recepients)) else LoadFrom(disk)
      ensures result.Ok? ==> loaded && recepients == result.value
      ensures result.Err? ==> !loaded && recepients == old(recepients)
    {
      var loadResult := Load();
      if loadResult.Err? {
        return Err(loadResult.error);
      }
      result := Ok(recepients);
    }

    /** Rewrites the whole file with the cached list. The buffered writer
        is dropped without being flushed, so a failure to write out the
        buffered bytes is not reported. */
    method Flush(io: WriteOutcome) returns (result: Result<()>)
      modifies this`disk
      ensures result.Ok? <==> io == Written || io == DropFailed
      ensures result.Err? ==> result.error == FlushFailed
      ensures io == Written ==> disk == Valid(recepients)
      ensures io == CannotCreate ==> disk == old(disk)
      ensures io == WriteFailed || io == DropFailed ==> disk == Malformed
    {
      if io == Written {
        disk := Valid(recepients);
        result := Ok(());
      } else if io == CannotCreate {
        result := Err(FlushFailed);
      } else if io == WriteFailed {
        disk := Malformed;
        result := Err(FlushFailed);
      } else {
        disk := Malformed;
        result := Ok(());
      }
    }

    /** The flush as evidently intended: the buffered writer is flushed
        explicitly before success is reported, so a success means the file
        holds exactly the cached list. */
    method FlushChecked(io: WriteOutcome) returns (result: Result<()>)
      modifies this`disk
      ensures result.Ok? <==> io == Written
      ensures result.Ok? ==> disk == Valid(recepients)
      ensures result.Err? ==> result.error == FlushFailed
      ensures io == CannotCreate ==> disk == old(disk)
      ensures io == WriteFailed || io == DropFailed ==> disk == Malformed
    {
      if io == Written {
        disk := Valid(recepients);
        result := Ok(());
      } else if io == CannotCreate {
        result := Err(FlushFailed);
      } else {
        disk := Malformed;
        result := Err(FlushFailed);
      }
    }

    /** Appends `r` unless an equal entry is present, then rewrites the file.
        A failed write is reported, but the in-memory change is kept. The
        cache is not loaded first. */
    method AddRecepient(r: Recepient, io: WriteOutcome) returns (result: Result<()>)
      modifies this`recepients, this`disk
      ensures loaded == old(loaded)
      ensures recepients == Added(old(recepients), r)
      ensures r in old(recepients) ==> recepients == old(recepients)
      ensures r !in old(recepients) ==> recepients == old(recepients) + [r]
      ensures NoDuplicates(old(recepients)) ==> NoDuplicates(recepients)
      ensures result.Ok? <==> io == Written || io == DropFailed
      ensures io == Written ==> disk == Valid(recepients)
      ensures io == CannotCreate ==> disk == old(disk)
      ensures io == WriteFailed || io == DropFailed ==> disk == Malformed
    {
      AddedSpec(recepients, r);
      if r !in recepients {
        recepients := recepients + [r];
      }
      result := Flush(io);
    }

    /** Drops every entry equal to `r`, then rewrites the file. Removing an
        absent recipient is not an error. The cache is not loaded first. */
    method RemoveRecepient(r: Recepient, io: WriteOutcome) returns (result: Result<()>)
      modifies this`recepients, this`disk
      ensures loaded == old(loaded)
      ensures recepients == Removed(old(recepients), r)
      ensures r !in recepients
      ensures r !in old(recepients) ==> recepients == old(recepients)
      ensures NoDuplicates(old(recepients)) ==> NoDuplicates(recepients)
      ensures result.Ok? <==> io == Written || io == DropFailed
      ensures io == Written ==> disk == Valid(recepients)
      ensures io == CannotCreate ==> disk == old(disk)
      ensures io == WriteFailed || io == DropFailed ==> disk == Malformed
    {
      if r !in recepients {
        RemovedAbsent(recepients, r);
      }
      if NoDuplicates(recepients) {
        RemovedNoDuplicates(recepients, r);
      }
      recepients := Removed(recepients, r);
      result := Flush(io);
    }

    /** The add as evidently intended: the cache is loaded before it is
        changed, so the persisted recipients survive the rewrite, and the
        write is flushed before success is reported. */
    method AddRecepientLoaded(r: Recepient, io: WriteOutcome) returns (result: Result<()>)
      modifies this`loaded, this`recepients, this`disk
      ensures !old(loaded) && LoadFrom(old(disk)).Err? ==>
        result == Err(LoadFailed) && unchanged(this)
      ensures old(loaded) ==> recepients == Added(old(recepients), r)
      ensures !old(loaded) && LoadFrom(old(disk)).Ok? ==>
        recepients == Added(LoadFrom(old(disk)).value, r)
      ensures !old(loaded) && LoadFrom(old(disk)).Ok? ==>
        forall x :: x in LoadFrom(old(disk)).value ==> x in recepients
      ensures old(loaded) || LoadFrom(old(disk)).Ok? ==>
        loaded && (result.Ok? <==> io == Written) &&
        (result.Err? ==> result.error == FlushFailed) &&
        (io == CannotCreate ==> disk == old(disk)) &&
        (io == WriteFailed || io == DropFailed ==> disk == Malformed)
      ensures result.Ok? ==> io == Written && disk == Valid(recepients)
    {
      var loadResult := Load();
      if loadResult.Err? {
        return loadResult;
      }
      AddedSpec(recepients, r);
      recepients := Added(recepients, r);
      result := FlushChecked(io);
    }
  }

  /** The subscribe/unsubscribe scenario: on a store with no file, adding
      {100, none} gives one entry, adding it again still one, removing it
      none, and the file then holds the empty list. */
  method SubscribeScenario() returns (afterAdd: seq<Recepient>, afterReAdd: seq<Recepient>,
                                      afterRemove: seq<Recepient>, persisted: Disk)
    ensures afterAdd == [Recepient(100, None)]
    ensures afterReAdd == [Recepient(100, None)]
    ensures afterRemove == []
    ensures persisted == Valid([])
  {
    var store := new Accessor(Absent);
    var r := Recepient(100, None);
    var got := store.GetSettings();
    var ok := store.AddRecepient(r, Written);
    got := store.GetSettings();
    afterAdd := got.value;
    ok := store.AddRecepient(r, Written);
    got := store.GetSettings();
    afterReAdd := got.value;
    ok := store.RemoveRecepient(r, Written);
    got := store.GetSettings();
    afterRemove := got.value;
    persisted := store.disk;
  }

  /** As written, a subscribe that arrives before anything has read the
      settings rewrites the file from the empty cache; the subscriber that
      was persisted is gone from the file and, after the next load, from
      the store. */
  method LostSubscriberScenario(persisted: Recepient, newcomer: Recepient)
    returns (file: Disk, later: Result<seq<Recepient>>)
    requires persisted != newcomer
    ensures file == Valid([newcomer])
    ensures later == Ok([newcomer])
  {
    var store := new Accessor(Valid([persisted]));
    var ok := store.AddRecepient(newcomer, Written);
    file := store.disk;
    later := store.GetSettings();
  }

  /** With the load done first, the same subscribe keeps the persisted
      subscriber. */
  method KeptSubscriberScenario(persisted: Recepient, newcomer: Recepient)
    returns (file: Disk, later: Result<seq<Recepient>>)
    requires persisted != newcomer
    ensures file == Valid([persisted, newcomer])
    ensures later == Ok([persisted, newcomer])
  {
    var store := new Accessor(Valid([persisted]));
    var ok := store.AddRecepientLoaded(newcomer, Written);
    file := store.disk;
    later := store.GetSettings();
  }

  /** As written, a subscribe whose buffered write is lost when the writer
      is dropped reports success, yet the file it truncated is left
      unreadable, so after a restart the store cannot be loaded. */
  method SwallowedWriteScenario(r: Recepient)
    returns (reported: Result<()>, file: Disk, afterRestart: Result<seq<Recepient>>)
    ensures reported.Ok?
    ensures file == Malformed
    ensures afterRestart == Err(LoadFailed)
  {
    var store := new Accessor(Absent);
    reported := store.AddRecepient(r, DropFailed);
    file := store.disk;
    var restarted := new Accessor(file);
    afterRestart := restarted.GetSettings();
  }

  /** With the explicit flush, the same lost write is reported. */
  method ReportedWriteScenario(r: Recepient)
    returns (reported: Result<()>, file: Disk)
    ensures reported == Err(FlushFailed)
    ensures file == Malformed
  {
    var store := new Accessor(Absent);
    reported := store.AddRecepientLoaded(r, DropFailed);
    file := store.disk;
  }
}
