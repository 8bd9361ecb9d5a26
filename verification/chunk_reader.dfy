/**
 The reader that reassembles an upload from its chunks on the fly
 (resumableuploadservice/resumableuploadservice.go): one buffer-filling Read against the loop of
 the original, and what any sequence of Reads with any buffer sizes delivers.
 */
module ChunkReader {
  import opened ChunkStore

  datatype Outcome = Fine | EOF | Failed

  /** Where a reader stands; number 0 is a reader that has not fetched anything yet. */
  datatype Position = Position(number: int, data: Bytes, offset: nat)

  const START: Position := Position(0, [], 0)

  datatype Source = Source(files: Files, uid: int, file: string, count: int) {
    predicate Has(n: int) {
      Present(files, uid, file, n)
    }

    function Get(n: int): Bytes {
      if Has(n) then files[Chunk(uid, file, n)] else []
    }

    /** The first chunk is fetched whatever the count says. */
    function Last(): int {
      if count < 1 then 1 else count
    }

    function From(n: int): Bytes {
      Content(files, uid, file, n, Last())
    }

    function Stream(): Bytes {
      From(1)
    }

    /** Whether a chunk from `n` on is missing. */
    ghost predicate Gap(n: int) {
      exists k | n <= k <= Last() :: !Has(k)
    }
  }

  ghost predicate Valid(p: Position) {
    p.number >= 0 && p.offset <= |p.data| && (p.number == 0 ==> p.data == [])
  }

  /** What is still to be delivered before the end or the next missing chunk. */
  function Rest(src: Source, p: Position): Bytes
    requires Valid(p)
  {
    p.data[p.offset..] + src.From(p.number + 1)
  }

  datatype Reading = Reading(after: Position, out: Bytes, outcome: Outcome)

  function Fetched(src: Source, number: int): Position {
    Position(number, src.Get(number), 0)
  }

  /** The loop of Read for a buffer of which `want` bytes are still empty. */
  function Fill(src: Source, p: Position, want: nat): Reading
    requires Valid(p)
    decreases if p.number <= src.count then src.count + 1 - p.number else 0
  {
    var remaining := |p.data| - p.offset;
    if want == 0 then Reading(p, [], Fine)
    else if remaining >= want then Reading(p.(offset := p.offset + want), p.data[p.offset..p.offset + want], Fine)
    else
      var used := p.data[p.offset..];
      var next := p.number + 1;
      if next > src.count then Reading(Position(next, p.data, |p.data|), used, EOF)
      else if !src.Has(next) then Reading(Fetched(src, next), used, Failed)
      else
        var r := Fill(src, Fetched(src, next), want - remaining);
        r.(out := used + r.out)
  }

  function ReadOnce(src: Source, p: Position, want: nat): Reading
    requires Valid(p)
  {
    if p.number > 0 then Fill(src, p, want)
    else if !src.Has(1) then Reading(Fetched(src, 1), [], Failed)
    else Fill(src, Fetched(src, 1), want)
  }

  class FileReader {
    const src: Source
    var currentChunkNumber: int
    var currentChunkData: Bytes
    var currentChunkOffset: nat

    function At(): Position
      reads this
    {
      Position(currentChunkNumber, currentChunkData, currentChunkOffset)
    }

    constructor (src: Source)
      requires src.uid != 0 && src.file != ""
      ensures this.src == src && At() == START
    {
      this.src := src;
      currentChunkNumber, currentChunkData, currentChunkOffset := 0, [], 0;
    }

    method Read(buf: array<bv8>) returns (n: nat, outcome: Outcome)
      requires Valid(At())
      modifies this, buf
      ensures Valid(At())
      ensures Finished(ReadOnce(src, old(At()), buf.Length), At(), n, outcome, old(buf[..]), buf[..])
    {
      hide Fill, Finished;
      n := 0;
      if currentChunkNumber == 0 {
        currentChunkNumber := 1;
        currentChunkData := src.Get(1);
        currentChunkOffset := 0;
        if !src.Has(1) {
          FinishedEmpty(Fetched(src, 1), buf[..]);
          return 0, Failed;
        }
      }
      FillFits(src, At(), buf.Length);
      n, outcome := FillBuffer(buf);
    }

    /** The loop. */
    method FillBuffer(buf: array<bv8>) returns (n: nat, outcome: Outcome)
      requires Valid(At()) && currentChunkNumber > 0
      modifies this, buf
      ensures Valid(At())
      ensures Finished(Fill(src, old(At()), buf.Length), At(), n, outcome, old(buf[..]), buf[..])
    {
      hide Fill, Continues, Finished, Valid, Present;
      ghost var whole := Fill(src, At(), buf.Length);
      ghost var tail := buf[..];
      ghost var sent: Bytes := [];
      n := 0;
      ContinuesAtStart(whole);
      while true
        invariant n == |sent| <= buf.Length && Valid(At()) && currentChunkNumber > 0
        invariant Continues(whole, sent, Fill(src, At(), buf.Length - n))
        invariant buf[..] == sent + tail[n..]
        decreases if currentChunkNumber <= src.count then src.count + 1 - currentChunkNumber else 0
      {
        ghost var p := At();
        ValidPosition(p);
        var want := buf.Length - n;
        var remaining := |currentChunkData| - currentChunkOffset;
        FillUnfolds(src, p, want);
        if n == buf.Length {
          assert sent + [] == sent;
          FinishedWith(whole, sent, Fill(src, p, want), tail);
          return n, Fine;
        }
        if remaining >= want {
          n := CopyNext(buf, n, currentChunkData[currentChunkOffset..currentChunkOffset + want], sent, tail);
          currentChunkOffset := currentChunkOffset + want;
          FinishedWith(whole, sent, Fill(src, p, want), tail);
          ValidPosition(At());
          return n, Fine;
        }
        ghost var used := currentChunkData[currentChunkOffset..];
        n := CopyNext(buf, n, currentChunkData[currentChunkOffset..], sent, tail);
        currentChunkOffset := |currentChunkData|;
        currentChunkNumber := currentChunkNumber + 1;
        if currentChunkNumber > src.count {
          FinishedWith(whole, sent, Fill(src, p, want), tail);
          ValidPosition(At());
          return n, EOF;
        }
        currentChunkOffset := 0;
        currentChunkData := src.Get(currentChunkNumber);
        ValidPosition(At());
        if !src.Has(currentChunkNumber) {
          FinishedWith(whole, sent, Fill(src, p, want), tail);
          return n, Failed;
        }
        ContinuesOn(whole, sent, Fill(src, p, want), used, Fill(src, At(), want - remaining));
        sent := sent + used;
      }
    }
  }

  /** The reader and the caller's buffer after a Read: the bytes read in front, the rest of the buffer untouched. */
  ghost predicate Finished(r: Reading, at: Position, n: nat, outcome: Outcome, before: Bytes, after: Bytes) {
    && at == r.after && outcome == r.outcome
    && n == |r.out| <= |before| && after == r.out + before[n..]
  }

  lemma FinishedEmpty(p: Position, before: Bytes)
    ensures Finished(Reading(p, [], Failed), p, 0, Failed, before, before)
  {
  }

  lemma FinishedWith(whole: Reading, sent: Bytes, r: Reading, before: Bytes)
    requires Continues(whole, sent, r) && |sent| + |r.out| <= |before|
    ensures Finished(whole, r.after, |sent| + |r.out|, r.outcome, before, sent + r.out + before[|sent| + |r.out|..])
  {
  }

  lemma ValidPosition(p: Position)
    ensures Valid(p) <==> p.number >= 0 && p.offset <= |p.data| && (p.number == 0 ==> p.data == [])
  {
  }

  /** `r` is what is left of `whole` once `sent` has been delivered. */
  ghost predicate Continues(whole: Reading, sent: Bytes, r: Reading) {
    whole == Reading(r.after, sent + r.out, r.outcome)
  }

  lemma ContinuesAtStart(whole: Reading)
    ensures Continues(whole, [], whole)
  {
    assert [] + whole.out == whole.out;
  }

  lemma ContinuesOn(whole: Reading, sent: Bytes, r: Reading, used: Bytes, rest: Reading)
    requires Continues(whole, sent, r) && Continues(r, used, rest)
    ensures Continues(whole, sent + used, rest)
  {
    assert (sent + used) + rest.out == sent + (used + rest.out);
  }

  method CopyNext(buf: array<bv8>, at: nat, bytes: Bytes, ghost sent: Bytes, ghost tail: Bytes) returns (n: nat)
    requires at == |sent| && at + |bytes| <= buf.Length == |tail| && buf[..] == sent + tail[at..]
    modifies buf
    ensures n == at + |bytes| && buf[..] == sent + bytes + tail[n..]
  {
    Copy(buf, at, bytes);
    n := at + |bytes|;
    assert old(buf[..at]) == old(buf[..])[..at] == sent;
    assert old(buf[n..]) == old(buf[..])[n..] == tail[n..];
  }

  method Copy(buf: array<bv8>, at: nat, bytes: Bytes)
    requires at + |bytes| <= buf.Length
    modifies buf
    ensures buf[..] == old(buf[..at]) + bytes + old(buf[at + |bytes|..])
  {
    for i := 0 to |bytes|
      invariant buf[..at] == old(buf[..at])
      invariant buf[at..at + i] == bytes[..i]
      invariant buf[at + i..] == old(buf[at + i..])
    {
      buf[at + i] := bytes[i];
    }
  }

  // ---------------------------------------------------------------- one Read

  lemma FillUnfolds(src: Source, p: Position, want: nat)
    requires Valid(p)
    ensures want == 0 ==> Fill(src, p, want) == Reading(p, [], Fine)
    ensures 0 < want <= |p.data| - p.offset ==>
              Fill(src, p, want) == Reading(p.(offset := p.offset + want), p.data[p.offset..p.offset + want], Fine)
    ensures want > |p.data| - p.offset && p.number + 1 > src.count ==>
              Fill(src, p, want) == Reading(Position(p.number + 1, p.data, |p.data|), p.data[p.offset..], EOF)
    ensures want > |p.data| - p.offset && p.number + 1 <= src.count && !src.Has(p.number + 1) ==>
              Fill(src, p, want) == Reading(Fetched(src, p.number + 1), p.data[p.offset..], Failed)
    ensures want > |p.data| - p.offset && p.number + 1 <= src.count && src.Has(p.number + 1) ==>
              Continues(Fill(src, p, want), p.data[p.offset..],
                        Fill(src, Fetched(src, p.number + 1), want - (|p.data| - p.offset)))
  {
  }

  lemma {:induction false} FillFits(src: Source, p: Position, want: nat)
    requires Valid(p)
    ensures |Fill(src, p, want).out| <= want && Valid(Fill(src, p, want).after)
    decreases if p.number <= src.count then src.count + 1 - p.number else 0
  {
    hide Fill, Present;
    FillUnfolds(src, p, want);
    var remaining := |p.data| - p.offset;
    if 0 < want && remaining < want && p.number < src.count && src.Has(p.number + 1) {
      FillFits(src, Fetched(src, p.number + 1), want - remaining);
    }
  }

  function Min(a: int, b: int): int {
    if a < b then a else b
  }

  /** The next chunk, or the end of the chunks. */
  lemma FromUnfolds(src: Source, n: int)
    requires n >= 1
    ensures n > src.Last() ==> src.From(n) == [] && !src.Gap(n)
    ensures n <= src.Last() && !src.Has(n) ==> src.From(n) == [] && src.Gap(n)
    ensures n <= src.Last() && src.Has(n) ==>
              src.From(n) == src.Get(n) + src.From(n + 1) && src.Gap(n) == src.Gap(n + 1)
  {
    if n <= src.Last() && src.Has(n) && src.Gap(n) {
      var k :| n <= k <= src.Last() && !src.Has(k);
      assert k >= n + 1;
    }
  }

  /**
   What one pass of the loop means: the next bytes of the rest of the file, as many as the buffer
   holds; it falls short only where the chunks end, or where one is missing.
   */
  ghost predicate Delivers(src: Source, p: Position, want: nat, r: Reading)
    requires Valid(p)
  {
    var rest := Rest(src, p);
    && Valid(r.after) && r.after.number >= 1
    && r.out == rest[..Min(want, |rest|)]
    && (r.outcome == if want <= |rest| then Fine else if src.Gap(p.number + 1) then Failed else EOF)
    && (r.outcome == Fine ==>
          Rest(src, r.after) == rest[want..] && src.Gap(r.after.number + 1) == src.Gap(p.number + 1))
    && (r.outcome == EOF ==> Rest(src, r.after) == [] && !src.Gap(r.after.number + 1))
    && (r.outcome == Failed ==> !src.Has(r.after.number) && Rest(src, r.after) == src.From(r.after.number + 1))
  }

  lemma FillDeliversHere(src: Source, p: Position, want: nat)
    requires Valid(p) && p.number >= 1 && want <= |p.data| - p.offset
    ensures Delivers(src, p, want, Fill(src, p, want))
  {
    hide Content, Present;
    var used, rest := p.data[p.offset..], src.From(p.number + 1);
    assert (used + rest)[..want] == used[..want] && (used + rest)[want..] == used[want..] + rest;
  }

  lemma FillStopsHere(src: Source, p: Position, want: nat)
    requires Valid(p) && p.number >= 1 && want > |p.data| - p.offset
    requires p.number + 1 > src.count || !src.Has(p.number + 1)
    ensures Delivers(src, p, want, Fill(src, p, want))
  {
    hide Content, Present;
    FromUnfolds(src, p.number + 1);
    FromUnfolds(src, p.number + 2);
    assert Rest(src, p) == p.data[p.offset..];
  }

  lemma {:induction false} FillDelivers(src: Source, p: Position, want: nat)
    requires Valid(p) && p.number >= 1
    ensures Delivers(src, p, want, Fill(src, p, want))
    decreases if p.number <= src.count then src.count + 1 - p.number else 0
  {
    hide Content, Present, Delivers, Rest;
    var remaining, next := |p.data| - p.offset, p.number + 1;
    if want <= remaining {
      FillDeliversHere(src, p, want);
    } else if next > src.count || !src.Has(next) {
      FillStopsHere(src, p, want);
    } else {
      var p' := Fetched(src, next);
      FillDelivers(src, p', want - remaining);
      FetchedRest(src, next);
      DeliversMore(src, p, p', want, Fill(src, p', want - remaining));
    }
  }

  lemma FetchedRest(src: Source, n: int)
    requires 1 <= n <= src.Last() && src.Has(n)
    ensures Rest(src, Fetched(src, n)) == src.From(n) && src.Gap(n) == src.Gap(n + 1)
  {
    FromUnfolds(src, n);
  }

  lemma DeliversMore(src: Source, p: Position, p': Position, want: nat, r: Reading)
    requires Valid(p) && Valid(p') && p.number >= 1 && p'.number == p.number + 1
    requires want > |p.data| - p.offset && Rest(src, p') == src.From(p'.number)
    requires src.Gap(p.number + 1) == src.Gap(p'.number + 1)
    requires Delivers(src, p', want - (|p.data| - p.offset), r)
    ensures Delivers(src, p, want, r.(out := p.data[p.offset..] + r.out))
  {
    hide Content, Present;
    var used, rest := p.data[p.offset..], src.From(p'.number);
    assert Rest(src, p) == used + rest;
    assert (used + rest)[..Min(want, |used| + |rest|)] == used + rest[..Min(want - |used|, |rest|)];
    if want <= |used| + |rest| {
      assert (used + rest)[want..] == rest[want - |used|..];
    }
  }

  /** The first Read also fetches the first chunk, and fails at once if there is none. */
  lemma ReadDelivers(src: Source, p: Position, want: nat)
    requires Valid(p) && (p.number == 0 ==> src.Has(1))
    ensures Delivers(src, p, want, ReadOnce(src, p, want))
  {
    hide Content, Fill, Delivers, Rest;
    if p.number == 0 {
      var first := Fetched(src, 1);
      FillDelivers(src, first, want);
      FetchedRest(src, 1);
      FirstDelivers(src, p, want, ReadOnce(src, p, want));
    } else {
      FillDelivers(src, p, want);
    }
  }

  lemma FirstDelivers(src: Source, p: Position, want: nat, r: Reading)
    requires Valid(p) && p.number == 0 && src.Has(1) && src.Gap(1) == src.Gap(2)
    requires Rest(src, Fetched(src, 1)) == src.From(1) && Delivers(src, Fetched(src, 1), want, r)
    ensures Delivers(src, p, want, r)
  {
    hide Content;
    assert Rest(src, p) == src.From(1);
  }

  // ---------------------------------------------------------------- any sequence of Reads

  function Reads(src: Source, p: Position, wants: seq<nat>): seq<Reading>
    requires Valid(p)
    decreases |wants|
  {
    if wants == [] then []
    else
      var r := ReadOnce(src, p, wants[0]);
      ReadKeepsValid(src, p, wants[0]);
      [r] + Reads(src, r.after, wants[1..])
  }

  lemma ReadKeepsValid(src: Source, p: Position, want: nat)
    requires Valid(p)
    ensures Valid(ReadOnce(src, p, want).after)
  {
    if p.number > 0 { FillFits(src, p, want); } else if src.Has(1) { FillFits(src, Fetched(src, 1), want); }
  }

  function Delivered(rs: seq<Reading>): Bytes {
    if rs == [] then [] else rs[0].out + Delivered(rs[1..])
  }

  function Sum(wants: seq<nat>): nat {
    if wants == [] then 0 else wants[0] + Sum(wants[1..])
  }

  lemma {:induction false} SumIsAtLeast(wants: seq<nat>, i: nat)
    requires i < |wants|
    ensures Sum(wants) >= wants[i]
  {
    if i > 0 { SumIsAtLeast(wants[1..], i - 1); }
  }

  /** With no chunk missing, from any position on. */
  lemma {:induction false} ReadsReassemble(src: Source, p: Position, wants: seq<nat>, i: nat)
    requires Valid(p) && !src.Gap(p.number + 1) && i < |wants|
    ensures var rest, rs := Rest(src, p), Reads(src, p, wants);
            && |rs| == |wants|
            && Delivered(rs) == rest[..Min(Sum(wants), |rest|)]
            && rs[i].outcome == (if wants[i] > 0 && Sum(wants[..i + 1]) > |rest| then EOF else Fine)
    decreases |wants|
  {
    hide Content, Fill, ReadOnce, Rest;
    var rest := Rest(src, p);
    if p.number == 0 { FromUnfolds(src, 1); }
    ReadDelivers(src, p, wants[0]);
    var r := ReadOnce(src, p, wants[0]);
    var left := Rest(src, r.after);
    assert left == rest[Min(wants[0], |rest|)..];
    assert wants[..1][1..] == [];
    if |wants| > 1 {
      ReadsReassemble(src, r.after, wants[1..], if i == 0 then 0 else i - 1);
      assert r.out + left[..Min(Sum(wants[1..]), |left|)] == rest[..Min(Sum(wants), |rest|)];
      assert wants[..i + 1][1..] == wants[1..][..i];
      if i > 0 { SumIsAtLeast(wants[1..][..i], i - 1); }
    } else {
      assert Reads(src, r.after, wants[1..]) == [];
      assert r.out + [] == r.out;
    }
  }

  /**
   Reassembly: when no chunk is missing, whatever the buffer sizes, the Reads of a new reader
   deliver the chunks in order and nothing else; a Read reports the end exactly when it asked for
   something and everything has been delivered without filling its buffer; none fails.
   */
  lemma ReaderReassembles(src: Source, wants: seq<nat>, i: nat)
    requires Complete(src.files, src.uid, src.file, 1, src.Last()) && i < |wants|
    ensures var stream, rs := src.Stream(), Reads(src, START, wants);
            && |rs| == |wants|
            && Delivered(rs) == stream[..Min(Sum(wants), |stream|)]
            && rs[i].outcome == (if wants[i] > 0 && Sum(wants[..i + 1]) > |stream| then EOF else Fine)
  {
    hide Content, Reads, Delivered, Sum;
    assert Rest(src, START) == src.Stream();
    ReadsReassemble(src, START, wants, i);
  }

  /** An upload that IsUploadFinished accepts is delivered with exactly the announced size. */
  lemma FinishedUploadHasItsSize(src: Source, expected: nat, wants: seq<nat>)
    requires src.count >= 1 && Complete(src.files, src.uid, src.file, 1, src.count)
    requires |Content(src.files, src.uid, src.file, 1, src.count)| == expected
    requires Sum(wants) > expected && wants != [] && wants[|wants| - 1] > 0
    ensures var rs := Reads(src, START, wants);
            |Delivered(rs)| == expected && |rs| == |wants| && rs[|rs| - 1].outcome == EOF
  {
    ReaderReassembles(src, wants, |wants| - 1);
    assert wants[..|wants|] == wants;
  }

  /** Two sources with the same chunks under possibly different files. */
  ghost predicate SameChunks(a: Source, b: Source) {
    && a.uid == b.uid && a.file == b.file && a.count == b.count
    && forall n | 1 <= n <= a.Last() :: a.Has(n) == b.Has(n) && a.Get(n) == b.Get(n)
  }

  lemma {:induction false} SameChunksFillAlike(a: Source, b: Source, p: Position, want: nat)
    requires SameChunks(a, b) && Valid(p)
    ensures Fill(a, p, want) == Fill(b, p, want)
    decreases if p.number <= a.count then a.count + 1 - p.number else 0
  {
    var remaining := |p.data| - p.offset;
    if 0 < want && remaining < want && p.number < a.count && a.Has(p.number + 1) {
      SameChunksFillAlike(a, b, Fetched(a, p.number + 1), want - remaining);
    }
  }

  lemma SameChunksReadAlike(a: Source, b: Source, p: Position, want: nat)
    requires SameChunks(a, b) && Valid(p)
    ensures ReadOnce(a, p, want) == ReadOnce(b, p, want)
  {
    hide Fill;
    if p.number > 0 {
      SameChunksFillAlike(a, b, p, want);
    } else if a.Has(1) {
      SameChunksFillAlike(a, b, Fetched(a, 1), want);
    }
  }

  /** With a chunk missing, every Read before the first failure is served from the chunks before it. */
  lemma {:induction false} ReadsUpToTheGap(src: Source, p: Position, wants: seq<nat>)
    requires Valid(p) && (p.number == 0 ==> src.Has(1)) && src.Gap(p.number + 1) && wants != []
    requires Sum(wants[..|wants| - 1]) <= |Rest(src, p)|
    ensures var rest, rs, n := Rest(src, p), Reads(src, p, wants), |wants| - 1;
            && |rs| == |wants| && (forall i | 0 <= i < n :: rs[i].outcome == Fine)
            && Delivered(rs) == rest[..Min(Sum(wants), |rest|)]
            && rs[n].outcome == (if Sum(wants) > |rest| then Failed else Fine)
    decreases |wants|
  {
    hide Content, Fill, ReadOnce, Rest;
    var rest, n := Rest(src, p), |wants| - 1;
    if p.number == 0 { FromUnfolds(src, 1); }
    ReadDelivers(src, p, wants[0]);
    var r := ReadOnce(src, p, wants[0]);
    if n == 0 {
      assert Reads(src, r.after, wants[1..]) == [];
      assert r.out + [] == r.out;
      assert Sum(wants) == wants[0];
    } else {
      assert wants[..n][1..] == wants[1..][..n - 1];
      assert wants[0] <= |rest|;
      var left := Rest(src, r.after);
      ReadsUpToTheGap(src, r.after, wants[1..]);
      assert r.out + left[..Min(Sum(wants[1..]), |left|)] == rest[..Min(Sum(wants), |rest|)];
    }
  }

  // ---------------------------------------------------------------- Reads after a failed one

  /** The first missing chunk from `n` on. */
  ghost function Missing(src: Source, n: int): (k: int)
    requires src.Gap(n)
    ensures n <= k <= src.Last() && !src.Has(k) && forall m | n <= m < k :: src.Has(m)
    decreases src.Last() - n
  {
    if src.Has(n) then Missing(src, n + 1) else n
  }

  lemma {:induction false} FillFails(src: Source, p: Position, want: nat)
    requires Valid(p) && p.number >= 1 && src.Gap(p.number + 1) && want > |Rest(src, p)|
    ensures Fill(src, p, want) == Reading(Fetched(src, Missing(src, p.number + 1)), Rest(src, p), Failed)
    decreases src.Last() - p.number
  {
    hide Content, Present;
    var next := p.number + 1;
    FromUnfolds(src, next);
    if src.Has(next) {
      var p' := Fetched(src, next);
      FetchedRest(src, next);
      assert Rest(src, p) == p.data[p.offset..] + Rest(src, p');
      FillFails(src, p', want - (|p.data| - p.offset));
    }
  }

  lemma ReadFails(src: Source, p: Position, want: nat)
    requires Valid(p) && src.Gap(p.number + 1) && (want > |Rest(src, p)| || (p.number == 0 && !src.Has(1)))
    ensures ReadOnce(src, p, want) == Reading(Fetched(src, Missing(src, p.number + 1)), Rest(src, p), Failed)
  {
    hide Content, Fill;
    if p.number > 0 {
      FillFails(src, p, want);
    } else {
      FromUnfolds(src, 1);
      assert Rest(src, p) == src.From(1);
      if src.Has(1) {
        assert Rest(src, Fetched(src, 1)) == src.From(1);
        FillFails(src, Fetched(src, 1), want);
      }
    }
  }

  /** There is a chunk missing further on, and the Read wants more than comes before it. */
  ghost predicate RunsIntoGap(src: Source, p: Position, want: nat)
    requires Valid(p)
  {
    src.Gap(p.number + 1) && (want > |Rest(src, p)| || (p.number == 0 && !src.Has(1)))
  }

  lemma OtherReadsSucceed(src: Source, p: Position, want: nat)
    requires Valid(p) && !RunsIntoGap(src, p, want)
    ensures ReadOnce(src, p, want).outcome != Failed
  {
    hide Content, Fill, ReadOnce;
    if p.number == 0 {
      FromUnfolds(src, 1);
      assert src.Has(1);
    }
    ReadDelivers(src, p, want);
  }

  /**
   A Read fails exactly when it wants more than there is before a missing chunk, and the Read after
   it goes on, without a word, with the chunks behind the missing one.
   */
  lemma ReadAfterFailureSkips(src: Source, p: Position, want: nat, again: nat)
    requires Valid(p)
    ensures ReadOnce(src, p, want).outcome == Failed <==> RunsIntoGap(src, p, want)
    ensures RunsIntoGap(src, p, want) ==>
              var failed := ReadOnce(src, p, want).after;
              var behind := src.From(Missing(src, p.number + 1) + 1);
              Valid(failed) && ReadOnce(src, failed, again).out == behind[..Min(again, |behind|)]
  {
    hide Content, Fill, ReadOnce, Delivers;
    if RunsIntoGap(src, p, want) {
      ReadFails(src, p, want);
      ReadBehind(src, Missing(src, p.number + 1), again);
    } else {
      OtherReadsSucceed(src, p, want);
    }
  }

  lemma ReadBehind(src: Source, k: int, again: nat)
    requires k >= 1 && !src.Has(k)
    ensures var failed, behind := Fetched(src, k), src.From(k + 1);
            Valid(failed) && ReadOnce(src, failed, again).out == behind[..Min(again, |behind|)]
  {
    hide Content, Fill, ReadOnce;
    ReadDelivers(src, Fetched(src, k), again);
    assert Rest(src, Fetched(src, k)) == src.From(k + 1);
  }

  predicate IsPrefix(a: Bytes, b: Bytes) {
    a <= b
  }

  /** A chunk with bytes in it comes after a missing one. */
  ghost predicate Stray(src: Source) {
    exists k, n | 1 <= k < n <= src.Last() :: !src.Has(k) && src.Get(n) != []
  }

  lemma {:induction false} NothingBehindGap(src: Source, k: int, n: int)
    requires !Stray(src) && 1 <= k < n && !src.Has(k)
    ensures src.From(n) == []
    decreases src.Last() - n
  {
    hide Content, Present;
    FromUnfolds(src, n);
    if n <= src.Last() && src.Has(n) {
      NothingBehindGap(src, k, n + 1);
    }
  }

  lemma {:induction false} ReadsArePrefix(src: Source, p: Position, wants: seq<nat>)
    requires Valid(p) && !Stray(src)
    ensures Delivered(Reads(src, p, wants)) <= Rest(src, p)
    decreases |wants|
  {
    hide Content, Fill, ReadOnce, Rest, Stray;
    if wants != [] {
      var rest, r := Rest(src, p), ReadOnce(src, p, wants[0]);
      ReadKeepsValid(src, p, wants[0]);
      ReadsArePrefix(src, r.after, wants[1..]);
      ReadLeavesRest(src, p, wants[0]);
    }
  }

  lemma ReadLeavesRest(src: Source, p: Position, want: nat)
    requires Valid(p) && !Stray(src)
    ensures var r := ReadOnce(src, p, want);
            Valid(r.after) && r.out <= Rest(src, p) && Rest(src, r.after) <= Rest(src, p)[|r.out|..]
  {
    hide Content, Fill, Stray;
    if p.number == 0 && !src.Has(1) {
      NothingBehindGap(src, 1, 2);
    } else {
      ReadDelivers(src, p, want);
      var r := ReadOnce(src, p, want);
      if r.outcome == Failed { NothingBehindGap(src, r.after.number, r.after.number + 1); }
    }
  }

  /** All the chunks there are, gaps or not. */
  function All(src: Source, n: int): Bytes
    decreases src.Last() - n
  {
    if n > src.Last() then [] else src.Get(n) + All(src, n + 1)
  }

  lemma {:induction false} AllWithoutGap(src: Source, n: int)
    requires n >= 1
    ensures !src.Gap(n) ==> All(src, n) == src.From(n)
    ensures src.Gap(n) ==> All(src, n) == src.From(n) + All(src, Missing(src, n) + 1)
    decreases src.Last() - n
  {
    hide Content, Present;
    FromUnfolds(src, n);
    if n <= src.Last() && src.Has(n) {
      AllWithoutGap(src, n + 1);
    }
  }

  lemma {:induction false} AllHasChunk(src: Source, n: int, m: int)
    requires n <= m <= src.Last()
    ensures |All(src, n)| >= |src.Get(m)|
    decreases m - n
  {
    if n < m { AllHasChunk(src, n + 1, m); }
  }

  lemma OneMoreRead(src: Source, p: Position, want: nat, more: seq<nat>)
    requires Valid(p)
    ensures Valid(ReadOnce(src, p, want).after)
    ensures var r := ReadOnce(src, p, want);
            && Reads(src, p, [want] + more) == [r] + Reads(src, r.after, more)
            && Delivered(Reads(src, p, [want] + more)) == r.out + Delivered(Reads(src, r.after, more))
  {
    hide Fill, ReadOnce;
    ReadKeepsValid(src, p, want);
    assert ([want] + more)[1..] == more;
    var rest := Reads(src, ReadOnce(src, p, want).after, more);
    assert ([ReadOnce(src, p, want)] + rest)[1..] == rest;
  }

  /** Some buffer sizes deliver every chunk there is. */
  lemma {:induction false} SomeReadsDrain(src: Source, p: Position) returns (wants: seq<nat>)
    requires Valid(p)
    ensures Delivered(Reads(src, p, wants)) == p.data[p.offset..] + All(src, p.number + 1)
    decreases src.Last() - p.number
  {
    hide Content, Present, Fill, ReadOnce, Reads, Delivered;
    var rest := Rest(src, p);
    AllWithoutGap(src, p.number + 1);
    if src.Gap(p.number + 1) {
      var failed := Fetched(src, Missing(src, p.number + 1));
      ReadFails(src, p, |rest| + 1);
      var more := SomeReadsDrain(src, failed);
      wants := [|rest| + 1] + more;
      OneMoreRead(src, p, |rest| + 1, more);
    } else {
      wants := [|rest|];
      ReadsReassemble(src, p, wants, 0);
      assert Sum(wants) == |rest|;
    }
  }

  /**
   However it is read, also after Reads that failed, a reader delivers nothing but a prefix of the
   chunks before the first missing one, if and only if no chunk with bytes in it follows a missing one.
   */
  lemma ReadsStayInOrder(src: Source)
    ensures (forall wants :: IsPrefix(Delivered(Reads(src, START, wants)), src.Stream())) <==> !Stray(src)
  {
    hide Content, Fill, ReadOnce, Reads, Delivered, All;
    assert Rest(src, START) == src.Stream();
    if Stray(src) {
      var k, m :| 1 <= k < m <= src.Last() && !src.Has(k) && src.Get(m) != [];
      var wants := SomeReadsDrain(src, START);
      AllWithoutGap(src, 1);
      assert src.Gap(1);
      var first := Missing(src, 1);
      assert first <= k;
      AllHasChunk(src, first + 1, m);
      assert !IsPrefix(Delivered(Reads(src, START, wants)), src.Stream());
    } else {
      forall wants ensures IsPrefix(Delivered(Reads(src, START, wants)), src.Stream()) {
        ReadsArePrefix(src, START, wants);
      }
    }
  }

  /** The second of three chunks is missing: the third is delivered right after the first. */
  lemma MissingChunkIsSkipped(uid: int, file: string, a: Bytes, c: Bytes)
    requires c != []
    ensures var src := Source(map[Chunk(uid, file, 1) := a, Chunk(uid, file, 3) := c], uid, file, 3);
            var rs := Reads(src, START, [|a| + 1, |c|]);
            && |rs| == 2 && rs[0] == Reading(Position(2, [], 0), a, Failed) && rs[1].outcome == Fine
            && Delivered(rs) == a + c && src.Stream() == a
  {
    hide Content, Fill, ReadOnce;
    var src := Source(map[Chunk(uid, file, 1) := a, Chunk(uid, file, 3) := c], uid, file, 3);
    FromUnfolds(src, 1);
    FromUnfolds(src, 2);
    FromUnfolds(src, 3);
    FromUnfolds(src, 4);
    assert Rest(src, START) == a && src.Gap(2) && src.Gap(1);
    ReadFails(src, START, |a| + 1);
    var failed := Position(2, [], 0);
    assert Rest(src, failed) == c;
    ReadDelivers(src, failed, |c|);
    assert [|a| + 1] + [|c|] == [|a| + 1, |c|] && [|c|] + [] == [|c|];
    OneMoreRead(src, START, |a| + 1, [|c|]);
    OneMoreRead(src, failed, |c|, []);
    assert Reads(src, ReadOnce(src, failed, |c|).after, []) == [] && Delivered([]) == [];
  }
}
