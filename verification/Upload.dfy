/** Chunked uploads: chunks arrive in any order and are assembled when the list of their indexes is long
    enough. */
module Upload {
  import opened Common

  type Bytes = seq<bv8>

  // ---- Cutting a file into chunks -------------------------------------------------------------

  /** Go's integer division, which truncates toward zero. */
  function TruncatedDiv(a: int, b: int): int
    requires b > 0
  {
    if a >= 0 then a / b else -((-a) / b)
  }

  /** The number of chunks a new session expects. */
  function TotalChunks(fileSize: int, chunkSize: nat): (n: nat)
    requires chunkSize > 0
    ensures n > 0
  {
    var n := TruncatedDiv(fileSize + chunkSize - 1, chunkSize);
    if n <= 0 then 1 else n
  }

  function ChunkOf(content: Bytes, chunkSize: nat, i: nat): Bytes {
    var from, to := i * chunkSize, i * chunkSize + chunkSize;
    if from >= |content| then [] else if to >= |content| then content[from..] else content[from..to]
  }

  function Chunks(content: Bytes, chunkSize: nat, n: nat): Bytes {
    if n == 0 then [] else Chunks(content, chunkSize, n - 1) + ChunkOf(content, chunkSize, n - 1)
  }

  lemma {:induction false} ChunksArePrefix(content: Bytes, chunkSize: nat, n: nat)
    requires chunkSize > 0
    ensures Chunks(content, chunkSize, n) == if n * chunkSize >= |content| then content else content[..n * chunkSize]
  {
    if n > 0 {
      ChunksArePrefix(content, chunkSize, n - 1);
      assert n * chunkSize == (n - 1) * chunkSize + chunkSize;
    } else {
      assert 0 * chunkSize == 0;
      assert |content| == 0 ==> content == [];
    }
  }

  /** The expected number of chunks is the least positive number that covers the file. */
  lemma ChunksCoverTheFile(content: Bytes, chunkSize: nat)
    requires chunkSize > 0
    ensures
      var n := TotalChunks(|content|, chunkSize);
      && Chunks(content, chunkSize, n) == content
      && (forall m: nat | 0 < m < n :: Chunks(content, chunkSize, m) != content)
  {
    var n := TotalChunks(|content|, chunkSize);
    DivisionBounds(|content|, chunkSize);
    ChunksArePrefix(content, chunkSize, n);
    forall m: nat | 0 < m < n ensures Chunks(content, chunkSize, m) != content {
      ChunksArePrefix(content, chunkSize, m);
      assert m * chunkSize <= (n - 1) * chunkSize by { MulMonotone(m, n - 1, chunkSize); }
    }
  }

  lemma MulMonotone(a: nat, b: nat, c: nat)
    requires a <= b
    ensures a * c <= b * c
  {
  }

  lemma DivisionBounds(size: nat, chunkSize: nat)
    requires chunkSize > 0
    ensures TotalChunks(size, chunkSize) * chunkSize >= size
    ensures TotalChunks(size, chunkSize) > 1 ==> (TotalChunks(size, chunkSize) - 1) * chunkSize < size
  {
    var x := size + chunkSize - 1;
    var q := x / chunkSize;
    assert x == q * chunkSize + x % chunkSize;
    assert (q - 1) * chunkSize == q * chunkSize - chunkSize;
  }

  /** An empty file is one chunk, and so is a size that is not positive. */
  lemma SmallFilesAreOneChunk(fileSize: int, chunkSize: nat)
    requires chunkSize > 0
    ensures TotalChunks(fileSize, chunkSize) == 1 <==> fileSize <= chunkSize
  {
    var x := fileSize + chunkSize - 1;
    if fileSize > 0 {
      assert x == (x / chunkSize) * chunkSize + x % chunkSize;
    } else if x >= 0 {
      assert x / chunkSize == 0;
    }
  }

  // ---- The session ----------------------------------------------------------------------------

  /** What is stored of a session: the list of received chunks and the chunk files. */
  datatype Session = Session(totalChunks: nat, uploaded: seq<nat>, files: map<nat, Bytes>)

  predicate StrictlySorted(s: seq<nat>) {
    forall i, j | 0 <= i < j < |s| :: s[i] < s[j]
  }

  /** The list is a sorted, duplicate-free part of the expected indexes, and every listed chunk is stored. */
  predicate Valid(s: Session) {
    && StrictlySorted(s.uploaded)
    && (forall i | i in s.uploaded :: i < s.totalChunks && i in s.files)
    && (forall i | i in s.files :: i < s.totalChunks)
  }

  /** Where appending and sorting puts a new index in a sorted list. */
  function Insert(s: seq<nat>, x: nat): (r: seq<nat>)
    requires StrictlySorted(s)
    ensures forall i :: i in r <==> i in s || i == x
    ensures x !in s ==> StrictlySorted(r)
  {
    if s == [] || x < s[0] then [x] + s
    else
      var rest := Insert(s[1..], x);
      assert s == [s[0]] + s[1..];
      assert forall i | i in s[1..] :: s[0] < i;
      assert x !in s ==> x != s[0] && forall i | i in rest :: s[0] < i;
      assert x !in s ==> forall k | 0 <= k < |rest| :: rest[k] in rest;
      [s[0]] + rest
  }

  /** Inserting is appending and sorting: the result is sorted and has the same elements, with multiplicity. */
  lemma {:induction false} InsertIsSortedAppend(s: seq<nat>, x: nat)
    requires StrictlySorted(s) && x !in s
    ensures StrictlySorted(Insert(s, x)) && multiset(Insert(s, x)) == multiset(s + [x])
  {
    if !(s == [] || x < s[0]) {
      InsertIsSortedAppend(s[1..], x);
      assert s + [x] == [s[0]] + (s[1..] + [x]);
    }
  }

  /** A chunk arrives; `saved` says whether the session row could be written. */
  function Received(s: Session, index: int, data: Bytes, saved: bool): (r: (Session, Result<bool>))
    requires Valid(s)
    ensures Valid(r.0)
  {
    if index < 0 || index >= s.totalChunks then (s, Err(UploadInvalidState))
    else if index in s.files then
      (s, if s.files[index] == data then Ok(true) else Err(UploadChunkConflict))
    else
      var files := s.files[index := data];
      if !saved then (s.(files := files), Err(Message("update failed")))
      else (s.(files := files, uploaded := Insert(s.uploaded, index)), Ok(false))
  }

  /** Indexes outside the session are refused; of a chunk that is there already an equal one is acknowledged and another
      refused, and nothing changes; a new one is stored, and listed if the session row could be written. */
  ghost predicate AnsweredRight(s: Session, s': Session, r: Result<bool>, index: int, data: Bytes, saved: bool) {
    && (index < 0 || index >= s.totalChunks ==> r == Err(UploadInvalidState) && s' == s)
    && (0 <= index < s.totalChunks && index in s.files && s.files[index] == data ==> r == Ok(true) && s' == s)
    && (0 <= index < s.totalChunks && index in s.files && s.files[index] != data ==>
          r == Err(UploadChunkConflict) && s' == s)
    && (0 <= index < s.totalChunks && index !in s.files ==>
          && s'.totalChunks == s.totalChunks && s'.files == s.files[index := data]
          && (if saved then r == Ok(false) && multiset(s'.uploaded) == multiset(s.uploaded + [index])
              else r == Err(Message("update failed")) && s'.uploaded == s.uploaded))
  }

  lemma ReceivedIsAnsweredRight(s: Session, index: int, data: Bytes, saved: bool)
    requires Valid(s)
    ensures AnsweredRight(s, Received(s, index, data, saved).0, Received(s, index, data, saved).1, index, data, saved)
  {
    if 0 <= index < s.totalChunks && index !in s.files { InsertIsSortedAppend(s.uploaded, index); }
  }

  datatype Arrival = Arrival(index: int, data: Bytes, saved: bool)

  function Receive(s: Session, arrivals: seq<Arrival>): (r: Session)
    requires Valid(s)
    ensures Valid(r)
    decreases |arrivals|
  {
    if arrivals == [] then s
    else Receive(Received(s, arrivals[0].index, arrivals[0].data, arrivals[0].saved).0, arrivals[1..])
  }

  /** The stored chunks, in index order. */
  function Assembled(files: map<nat, Bytes>, n: nat): Bytes
    requires forall i | 0 <= i < n :: i in files
  {
    if n == 0 then [] else Assembled(files, n - 1) + files[n - 1]
  }

  class UploadService {
    var totalChunks: nat
    var uploadedChunks: seq<nat>
    var chunkFiles: map<nat, Bytes>
    /** The file at the target, once a finish has created it. */
    var target: Option<Bytes>

    constructor (fileSize: int, chunkSize: nat)
      requires chunkSize > 0
      ensures Stored() == Session(TotalChunks(fileSize, chunkSize), [], map[]) && target == None
      ensures Valid(Stored())
    {
      totalChunks, uploadedChunks, chunkFiles, target := TotalChunks(fileSize, chunkSize), [], map[], None;
    }

    function Stored(): Session
      reads this
    {
      Session(totalChunks, uploadedChunks, chunkFiles)
    }

    method UploadChunk(index: int, data: Bytes, saved: bool) returns (r: Result<bool>)
      requires Valid(Stored())
      modifies this
      ensures (Stored(), r) == Received(old(Stored()), index, data, saved)
      ensures AnsweredRight(old(Stored()), Stored(), r, index, data, saved)
      ensures target == old(target)
    {
      ReceivedIsAnsweredRight(Stored(), index, data, saved);
      hide AnsweredRight;
      if index < 0 || index >= totalChunks { return Err(UploadInvalidState); }
      if index in chunkFiles {
        if chunkFiles[index] == data { return Ok(true); }
        return Err(UploadChunkConflict);
      }
      chunkFiles := chunkFiles[index := data];
      var session := uploadedChunks;
      if index !in session { session := Insert(session, index); }
      if !saved { return Err(Message("update failed")); }
      uploadedChunks := session;
      return Ok(false);
    }

    /** `finishLocal` up to the metadata commit. The file it has begun to write stays when the hash does
        not match. */
    method FinishLocal(fileHash: string, hash: Bytes -> string) returns (r: Result<Bytes>)
      requires Valid(Stored())
      modifies this`target
      ensures r == Err(UploadFinishIncomplete) <==> |uploadedChunks| < totalChunks
      ensures r == Err(FileAlreadyExists) <==> |uploadedChunks| >= totalChunks && old(target).Some?
      ensures r.Ok? ==> target == Some(r.value)
      ensures |uploadedChunks| >= totalChunks && old(target).None? ==>
                && (forall i | 0 <= i < totalChunks :: i in chunkFiles)
                && target == Some(Assembled(chunkFiles, totalChunks))
                && r == (if fileHash != "" && hash(target.value) != fileHash then Err(UploadHashMismatch)
                         else Ok(target.value))
      ensures |uploadedChunks| < totalChunks || old(target).Some? ==> target == old(target)
    {
      if |uploadedChunks| < totalChunks { return Err(UploadFinishIncomplete); }
      if target.Some? { return Err(FileAlreadyExists); }
      FullListCoversAll(Stored());
      var output: Bytes := [];
      for index := 0 to totalChunks
        invariant output == Assembled(chunkFiles, index)
      {
        output := output + chunkFiles[index];
      }
      target := Some(output);
      if fileHash != "" && hash(output) != fileHash { return Err(UploadHashMismatch); }
      return Ok(output);
    }
  }

  // ---- The length test ------------------------------------------------------------------------

  /** A strictly sorted list of naturals below `n` that is `n` long is 0, 1, 2, and so on. */
  lemma {:induction false} SortedAndFull(s: seq<nat>, n: nat, k: nat)
    requires StrictlySorted(s) && (forall i | i in s :: i < n) && |s| >= n && k < |s|
    ensures |s| == n && s[k] == k
  {
    AtLeast(s, k);
    AtLeast(s, |s| - 1);
    assert s[|s| - 1] in s;
    AtMost(s, n, k);
  }

  lemma {:induction false} AtLeast(s: seq<nat>, k: nat)
    requires StrictlySorted(s) && k < |s|
    ensures s[k] >= k
  {
    if k > 0 { AtLeast(s, k - 1); }
  }

  lemma {:induction false} AtMost(s: seq<nat>, n: nat, k: nat)
    requires StrictlySorted(s) && (forall i | i in s :: i < n) && k < |s|
    ensures s[k] <= n - (|s| - k)
    decreases |s| - k
  {
    assert s[k] in s;
    if k + 1 < |s| { AtMost(s, n, k + 1); }
  }

  /** Comparing lengths decides completeness: a list that is long enough holds every expected index. */
  lemma FullListCoversAll(s: Session)
    requires Valid(s)
    ensures |s.uploaded| <= s.totalChunks
    ensures |s.uploaded| >= s.totalChunks <==> forall i: nat | i < s.totalChunks :: i in s.uploaded
    ensures |s.uploaded| >= s.totalChunks ==> forall i: nat | i < s.totalChunks :: i in s.files
  {
    if |s.uploaded| >= s.totalChunks {
      forall i: nat | i < s.totalChunks ensures i in s.uploaded {
        SortedAndFull(s.uploaded, s.totalChunks, i);
      }
      if |s.uploaded| > 0 { SortedAndFull(s.uploaded, s.totalChunks, 0); }
    }
    if forall i: nat | i < s.totalChunks :: i in s.uploaded {
      AllPresent(s.uploaded, s.totalChunks);
    }
  }

  lemma AllPresent(s: seq<nat>, n: nat)
    requires forall i: nat | i < n :: i in s
    ensures |s| >= n
  {
    if n > 0 {
      var top: nat := n - 1;
      assert top in s;
      var k :| 0 <= k < |s| && s[k] == top;
      var rest := s[..k] + s[k + 1..];
      forall i: nat | i < n - 1 ensures i in rest {
        assert i in s;
        var j :| 0 <= j < |s| && s[j] == i;
        if j < k { assert rest[j] == i; } else { assert rest[j - 1] == i; }
      }
      AllPresent(rest, n - 1);
    }
  }

  // ---- Runs -----------------------------------------------------------------------------------

  /** The chunks a faithful client sends. */
  predicate Faithful(content: Bytes, chunkSize: nat, a: Arrival) {
    a.index >= 0 ==> a.data == ChunkOf(content, chunkSize, a.index)
  }

  lemma {:induction false} StoredChunksAreFaithful(s: Session, arrivals: seq<Arrival>, content: Bytes, chunkSize: nat)
    requires Valid(s) && forall i | i in s.files :: s.files[i] == ChunkOf(content, chunkSize, i)
    requires forall k | 0 <= k < |arrivals| :: Faithful(content, chunkSize, arrivals[k])
    ensures forall i | i in Receive(s, arrivals).files ::
            Receive(s, arrivals).files[i] == ChunkOf(content, chunkSize, i)
    ensures Receive(s, arrivals).totalChunks == s.totalChunks
    decreases |arrivals|
  {
    hide ChunkOf;
    if arrivals != [] {
      var a := arrivals[0];
      var next := Received(s, a.index, a.data, a.saved).0;
      assert forall k | 0 <= k < |arrivals[1..]| :: arrivals[1..][k] == arrivals[k + 1];
      StoredChunksAreFaithful(next, arrivals[1..], content, chunkSize);
    }
  }

  lemma {:induction false} AssembledIsChunks(files: map<nat, Bytes>, content: Bytes, chunkSize: nat, n: nat)
    requires forall i | 0 <= i < n :: i in files && files[i] == ChunkOf(content, chunkSize, i)
    ensures Assembled(files, n) == Chunks(content, chunkSize, n)
  {
    if n > 0 { AssembledIsChunks(files, content, chunkSize, n - 1); }
  }

  /** In whatever order, and however often, a faithful client sends its chunks: as soon as the length test
      passes, assembling gives the original file. */
  lemma FinishRebuildsTheFile(content: Bytes, chunkSize: nat, arrivals: seq<Arrival>)
    requires chunkSize > 0
    requires forall k | 0 <= k < |arrivals| :: Faithful(content, chunkSize, arrivals[k])
    ensures
      var start := Session(TotalChunks(|content|, chunkSize), [], map[]);
      var s := Receive(start, arrivals);
      |s.uploaded| >= s.totalChunks ==>
        (forall i | 0 <= i < s.totalChunks :: i in s.files) && Assembled(s.files, s.totalChunks) == content
  {
    var start := Session(TotalChunks(|content|, chunkSize), [], map[]);
    var s := Receive(start, arrivals);
    StoredChunksAreFaithful(start, arrivals, content, chunkSize);
    if |s.uploaded| >= s.totalChunks {
      FullListCoversAll(s);
      AssembledIsChunks(s.files, content, chunkSize, s.totalChunks);
      ChunksCoverTheFile(content, chunkSize);
    }
  }

  /** The first content stored for an index stays, whatever arrives afterwards, and a chunk sent again is acknowledged
      exactly if it is that content. */
  lemma {:induction false} FirstContentWins(s: Session, arrivals: seq<Arrival>, i: nat, data: Bytes, saved: bool)
    requires Valid(s) && i in s.files
    ensures
      var s' := Receive(s, arrivals);
      && i in s'.files && s'.files[i] == s.files[i]
      && Received(s', i, data, saved) == (s', if data == s.files[i] then Ok(true) else Err(UploadChunkConflict))
    decreases |arrivals|
  {
    if arrivals != [] {
      FirstContentWins(Received(s, arrivals[0].index, arrivals[0].data, arrivals[0].saved).0, arrivals[1..], i, data,
                       saved);
    }
  }

  /** Stored and listed chunks are the same. */
  predicate NothingLost(s: Session) {
    forall i | i in s.files :: i in s.uploaded
  }

  /** As long as every session row could be written, stored chunks are listed. */
  lemma {:induction false} SavedChunksAreListed(s: Session, arrivals: seq<Arrival>)
    requires Valid(s) && NothingLost(s)
    requires forall k | 0 <= k < |arrivals| :: arrivals[k].saved
    ensures NothingLost(Receive(s, arrivals))
    decreases |arrivals|
  {
    if arrivals != [] {
      assert forall k | 0 <= k < |arrivals[1..]| :: arrivals[1..][k] == arrivals[k + 1];
      SavedChunksAreListed(Received(s, arrivals[0].index, arrivals[0].data, arrivals[0].saved).0, arrivals[1..]);
    }
  }

  /** A chunk whose file was stored but whose session row was not is never listed again, whatever is
      uploaded afterwards: sending it again is answered "already uploaded". */
  lemma {:induction false} LostChunkStaysLost(s: Session, arrivals: seq<Arrival>, i: nat)
    requires Valid(s) && i in s.files && i !in s.uploaded
    ensures
      var s' := Receive(s, arrivals);
      i in s'.files && i !in s'.uploaded && |s'.uploaded| < s'.totalChunks
    decreases |arrivals|
  {
    if arrivals != [] {
      LostChunkStaysLost(Received(s, arrivals[0].index, arrivals[0].data, arrivals[0].saved).0, arrivals[1..], i);
    } else {
      FullListCoversAll(s);
    }
  }

  /** How a chunk gets lost: its file is stored, the session row is not saved. From then on no arrivals complete the
      session. */
  lemma UnsavedChunkIsLost(s: Session, index: nat, data: Bytes, arrivals: seq<Arrival>)
    requires Valid(s) && index < s.totalChunks && index !in s.files
    ensures
      var lost := Received(s, index, data, false).0;
      && index in lost.files && index !in lost.uploaded && !NothingLost(lost)
      && |Receive(lost, arrivals).uploaded| < s.totalChunks
  {
    var lost := Received(s, index, data, false).0;
    LostChunkStaysLost(lost, arrivals, index);
    TotalIsFixed(lost, arrivals);
  }

  /** A session can still be completed exactly when no stored chunk has gone unlisted. */
  lemma CompletableIffNothingLost(s: Session)
    requires Valid(s)
    ensures NothingLost(s) <==> exists arrivals :: |Receive(s, arrivals).uploaded| >= s.totalChunks
  {
    if NothingLost(s) {
      var arrivals := SendAll(s.totalChunks);
      SendingMissingCompletes(s, s.totalChunks);
    } else {
      var i :| i in s.files && i !in s.uploaded;
      forall arrivals ensures |Receive(s, arrivals).uploaded| < s.totalChunks {
        LostChunkStaysLost(s, arrivals, i);
        TotalIsFixed(s, arrivals);
      }
    }
  }

  lemma {:induction false} TotalIsFixed(s: Session, arrivals: seq<Arrival>)
    requires Valid(s)
    ensures Receive(s, arrivals).totalChunks == s.totalChunks
    decreases |arrivals|
  {
    if arrivals != [] {
      TotalIsFixed(Received(s, arrivals[0].index, arrivals[0].data, arrivals[0].saved).0, arrivals[1..]);
    }
  }

  function SendAll(n: nat): seq<Arrival> {
    if n == 0 then [] else [Arrival(n - 1, [], true)] + SendAll(n - 1)
  }

  lemma {:induction false} SendingMissingCompletes(s: Session, n: nat)
    requires Valid(s) && NothingLost(s) && n <= s.totalChunks
    requires forall i: nat | n <= i < s.totalChunks :: i in s.uploaded
    ensures |Receive(s, SendAll(n)).uploaded| >= s.totalChunks
    decreases n
  {
    hide Received, NothingLost, Valid;
    if n == 0 {
      FullListCoversAll(s);
    } else {
      var next := Received(s, n - 1, [], true).0;
      OneMoreListed(s, n - 1);
      SendingMissingCompletes(next, n - 1);
      assert SendAll(n)[1..] == SendAll(n - 1);
    }
  }

  lemma OneMoreListed(s: Session, i: nat)
    requires Valid(s) && NothingLost(s) && i < s.totalChunks
    ensures
      var next := Received(s, i, [], true).0;
      && NothingLost(next) && next.totalChunks == s.totalChunks && i in next.uploaded
      && forall k | k in s.uploaded :: k in next.uploaded
  {
  }
}
