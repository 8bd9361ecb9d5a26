/**
 The chunk files of resumable uploads (resumableuploadservice/resumableuploadservice.go). A file
 name is built from the user, a digest of the complete identifier and the chunk number; the digest
 is taken to be injective, so names are those three things.
 */
module ChunkStore {
  type Bytes = seq<bv8>

  /** A chunk, or the partial file it is written to before the rename. */
  datatype Name = Name(uid: int, file: string, number: int, part: bool)

  type Files = map<Name, Bytes>

  function Chunk(uid: int, file: string, number: int): Name {
    Name(uid, file, number, false)
  }

  predicate Present(files: Files, uid: int, file: string, number: int) {
    Chunk(uid, file, number) in files
  }

  /** The content of chunks `from` to `count` in order, up to the first one that is missing. */
  function Content(files: Files, uid: int, file: string, from: int, count: int): Bytes
    decreases count - from
  {
    if from > count || !Present(files, uid, file, from) then []
    else files[Chunk(uid, file, from)] + Content(files, uid, file, from + 1, count)
  }

  predicate Complete(files: Files, uid: int, file: string, from: int, count: int) {
    forall n | from <= n <= count :: Present(files, uid, file, n)
  }

  /** The names DeleteFile removes: every chunk and every partial file of one upload. */
  predicate Owned(name: Name, uid: int, file: string, count: int) {
    name.uid == uid && name.file == file && 1 <= name.number <= count
  }

  datatype Option<+T> = None | Some(value: T)

  /** How storing a chunk goes; a failed write may leave anything in the partial file. */
  datatype Fault = Clean | WriteFailed(left: Option<Bytes>) | RenameFailed

  /** A chunk appears complete or not at all, and nothing but the chunk and its partial file changes. */
  function Put(files: Files, uid: int, file: string, number: int, chunk: Bytes, fault: Fault): (after: Files)
    ensures fault.Clean? ==> Present(after, uid, file, number) && after[Chunk(uid, file, number)] == chunk
    ensures !fault.Clean? ==> Present(after, uid, file, number) == Present(files, uid, file, number)
    ensures forall name: Name | name.part == false && name != Chunk(uid, file, number) ::
              name in after <==> name in files
    ensures forall name | name in files && name in after && name.part == false ::
              after[name] == files[name] || (fault.Clean? && name == Chunk(uid, file, number))
    ensures forall name | name in after && name !in files ::
              name.uid == uid && name.file == file && name.number == number
  {
    var partial := Name(uid, file, number, true);
    match fault
    case Clean => files[Chunk(uid, file, number) := chunk] - {partial}
    case WriteFailed(left) => if left.Some? then files[partial := left.value] else files
    case RenameFailed => files[partial := chunk]
  }

  lemma {:induction false} ContentGrows(files: Files, uid: int, file: string, from: int, n: int)
    requires from <= n + 1 && Complete(files, uid, file, from, n)
    ensures Content(files, uid, file, from, n + 1) ==
            Content(files, uid, file, from, n) +
            if Present(files, uid, file, n + 1) then files[Chunk(uid, file, n + 1)] else []
    decreases n - from
  {
    if from <= n {
      ContentGrows(files, uid, file, from + 1, n);
    } else {
      assert Content(files, uid, file, n + 2, n + 1) == [];
    }
  }

  /** Only an upload's own chunks decide what its content is. */
  lemma {:induction false} ContentDependsOnOwn(files: Files, files': Files, uid: int, file: string, from: int,
                                               count: int)
    requires forall n | from <= n <= count :: Present(files, uid, file, n) == Present(files', uid, file, n)
    requires forall n | from <= n <= count && Present(files, uid, file, n) && Present(files', uid, file, n) ::
               files[Chunk(uid, file, n)] == files'[Chunk(uid, file, n)]
    ensures Content(files, uid, file, from, count) == Content(files', uid, file, from, count)
    decreases count - from
  {
    if from <= count {
      ContentDependsOnOwn(files, files', uid, file, from + 1, count);
    }
  }

  lemma {:induction false} ContentSplits(files: Files, uid: int, file: string, from: int, k: int, count: int)
    requires from <= k <= count + 1 && Complete(files, uid, file, from, k - 1)
    ensures Content(files, uid, file, from, count)
         == Content(files, uid, file, from, k - 1) + Content(files, uid, file, k, count)
    decreases k - from
  {
    if from < k {
      ContentSplits(files, uid, file, from + 1, k, count);
    } else {
      assert Content(files, uid, file, from, k - 1) == [];
    }
  }

  /** Every byte of every chunk has its place: behind the bytes of all chunks before it. */
  lemma ByteInPlace(files: Files, uid: int, file: string, k: int, count: int, i: nat)
    requires 1 <= k <= count && Complete(files, uid, file, 1, count)
    requires Present(files, uid, file, k) && i < |files[Chunk(uid, file, k)]|
    ensures var before, all := |Content(files, uid, file, 1, k - 1)|, Content(files, uid, file, 1, count);
            before + i < |all| && all[before + i] == files[Chunk(uid, file, k)][i]
    ensures |Content(files, uid, file, 1, k)| == |Content(files, uid, file, 1, k - 1)| + |files[Chunk(uid, file, k)]|
    ensures Content(files, uid, file, 1, 0) == []
  {
    ContentSplits(files, uid, file, 1, k, count);
    ContentGrows(files, uid, file, 1, k - 1);
  }

  class Directory {
    var files: Files

    constructor ()
      ensures files == map[]
    {
      files := map[];
    }

    /** Written to the partial file, then renamed over the chunk; either step can fail. */
    method PutChunk(uid: int, file: string, number: int, chunk: Bytes, fault: Fault) returns (ok: bool)
      requires uid != 0 && file != "" && number != 0 && chunk != []
      modifies this
      ensures ok <==> fault.Clean?
      ensures files == Put(old(files), uid, file, number, chunk, fault)
    {
      var partial := Name(uid, file, number, true);
      if fault.WriteFailed? {
        if fault.left.Some? {
          files := files[partial := fault.left.value];
        }
        return false;
      }
      files := files[partial := chunk];
      if fault.RenameFailed? {
        return false;
      }
      files := files[Chunk(uid, file, number) := files[partial]] - {partial};
      return true;
    }

    method TestChunk(uid: int, file: string, number: int, size: int) returns (received: bool)
      requires uid != 0 && file != "" && number != 0 && size != 0
      ensures received <==> Present(files, uid, file, number) && |files[Chunk(uid, file, number)]| == size
    {
      if !Present(files, uid, file, number) { return false; }
      return |files[Chunk(uid, file, number)]| == size;
    }

    /** Finished means that every chunk is there and that together they have the announced size. */
    method IsUploadFinished(uid: int, file: string, count: int, expected: int) returns (finished: bool)
      requires uid != 0 && file != ""
      ensures finished <==> Complete(files, uid, file, 1, count) && |Content(files, uid, file, 1, count)| == expected
    {
      var total := 0;
      var i := 1;
      while i <= count
        invariant 1 <= i && (i <= count + 1 || i == 1)
        invariant Complete(files, uid, file, 1, i - 1) && total == |Content(files, uid, file, 1, i - 1)|
      {
        if !Present(files, uid, file, i) { return false; }
        ContentGrows(files, uid, file, 1, i - 1);
        total := total + |files[Chunk(uid, file, i)]|;
        i := i + 1;
      }
      return total == expected;
    }

    /** Removes what can be removed and reports whether anything was left; `stuck` names cannot be removed. */
    method DeleteFile(uid: int, file: string, count: int, stuck: set<Name>) returns (ok: bool)
      requires uid != 0 && file != ""
      modifies this
      ensures forall name :: name in files <==> name in old(files) && (Owned(name, uid, file, count) ==> name in stuck)
      ensures forall name | name in files :: files[name] == old(files)[name]
      ensures ok <==> forall name | name in files :: !Owned(name, uid, file, count)
    {
      ok := true;
      for i := 1 to (if count < 1 then 1 else count + 1)
        invariant forall name :: name in files <==>
                  name in old(files) && (Owned(name, uid, file, i - 1) ==> name in stuck)
        invariant forall name | name in files :: files[name] == old(files)[name]
        invariant ok <==> forall name | name in files :: !Owned(name, uid, file, i - 1)
      {
        var chunk, partial := Chunk(uid, file, i), Name(uid, file, i, true);
        if chunk in files && chunk in stuck { ok := false; }
        if partial in files && partial in stuck { ok := false; }
        files := files - ({chunk, partial} - stuck);
        assert forall name :: Owned(name, uid, file, i) <==> Owned(name, uid, file, i - 1) || name in {chunk, partial};
      }
    }
  }
}
