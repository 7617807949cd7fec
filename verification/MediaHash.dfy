/** Hashing a media file before it is imported: bounded reads into one buffer, with the abort
    signal, the recording guard and the deadline checked around each. */
module MediaHash {
  import opened Common

  const MEDIA_SOURCE_MAX_BYTES: nat := 2 * 1024 * 1024 * 1024
  const MEDIA_SOURCE_HASH_CHUNK_BYTES: nat := 512 * 1024

  type Bytes = seq<Byte>

  datatype Code =
    | Cancelled | RecordingPriority | HashTimeout | NotFile | Empty | TooLarge | SourceChanged | SourceUnavailable

  datatype Stat = Stat(isFile: bool, size: int)

  /** One read: what the checks before it said, what it delivered, what the checks after it said.
      A read that reports a count it did not deliver is `Misreported`. */
  datatype Read = Delivered(data: Bytes) | Misreported | ReadFailed

  datatype Turn = Turn(before: Option<Code>, read: Read, after: Option<Code>)

  /** The stat after the loop, and what the checks around it said. */
  datatype Ending = Ending(before: Option<Code>, stat: Result<Stat, Code>, after: Option<Code>)

  function StatObjection(s: Stat): Option<Code> {
    if !s.isFile then Some(NotFile)
    else if s.size <= 0 then Some(Empty)
    else if s.size > MEDIA_SOURCE_MAX_BYTES then Some(TooLarge)
    else None
  }

  /** What a turn contributes when `wanted` bytes are still missing. */
  function TurnResult(t: Turn, wanted: nat): Result<Bytes, Code> {
    if t.before.Some? then Err(t.before.value)
    else if t.read.ReadFailed? then Err(SourceUnavailable)
    else if t.after.Some? then Err(t.after.value)
    else if t.read.Misreported? then Err(SourceChanged)
    else if 0 < |t.read.data| <= Min(MEDIA_SOURCE_HASH_CHUNK_BYTES, wanted) then Ok(t.read.data)
    else Err(SourceChanged)
  }

  /** The bytes the loop feeds to the hash. Without another turn, the read outlives the deadline. */
  function Hashed(turns: seq<Turn>, wanted: nat): Result<Bytes, Code>
    decreases |turns|
  {
    if wanted == 0 then Ok([])
    else if turns == [] then Err(HashTimeout)
    else
      var now := TurnResult(turns[0], wanted);
      if now.Err? then now
      else
        var rest := Hashed(turns[1..], wanted - |now.value|);
        if rest.Err? then rest else Ok(now.value + rest.value)
  }

  function HashSource(initial: Stat, turns: seq<Turn>, ending: Ending): Result<Bytes, Code> {
    if StatObjection(initial).Some? then Err(StatObjection(initial).value)
    else
      var hashed := Hashed(turns, initial.size);
      if hashed.Err? then hashed
      else if ending.before.Some? then Err(ending.before.value)
      else if ending.stat.Err? then Err(ending.stat.error)
      else if ending.after.Some? then Err(ending.after.value)
      else if !ending.stat.value.isFile || ending.stat.value.size != initial.size then Err(SourceChanged)
      else hashed
  }

  /** hashCanonicalMediaSource, up to the digest of the bytes it returns here. The buffer is
      allocated zeroed, reused by every read and wiped once the loop has ended, however it did. */
  method HashCanonicalMediaSource(buffer: array<Byte>, initial: Stat, turns: seq<Turn>, ending: Ending)
    returns (result: Result<Bytes, Code>)
    requires buffer.Length == MEDIA_SOURCE_HASH_CHUNK_BYTES
    requires forall i :: 0 <= i < buffer.Length ==> buffer[i] == 0
    modifies buffer
    ensures result == HashSource(initial, turns, ending)
    ensures forall i :: 0 <= i < buffer.Length ==> buffer[i] == 0
  {
    if StatObjection(initial).Some? { return Err(StatObjection(initial).value); }
    var hashed := FeedAll(buffer, initial.size, turns);
    Wipe(buffer);
    if hashed.Err? { return hashed; }
    if ending.before.Some? { return Err(ending.before.value); }
    if ending.stat.Err? { return Err(ending.stat.error); }
    if ending.after.Some? { return Err(ending.after.value); }
    var changed := !ending.stat.value.isFile || ending.stat.value.size != initial.size;
    result := if changed then Err(SourceChanged) else hashed;
  }

  method Wipe(buffer: array<Byte>)
    modifies buffer
    ensures forall i :: 0 <= i < buffer.Length ==> buffer[i] == 0
  {
    for i := 0 to buffer.Length
      invariant forall k :: 0 <= k < i ==> buffer[k] == 0
    {
      buffer[i] := 0;
    }
  }

  /** The read loop: it tracks its position and hands each filled part of the buffer to the hash. */
  method FeedAll(buffer: array<Byte>, size: nat, turns: seq<Turn>) returns (result: Result<Bytes, Code>)
    requires buffer.Length == MEDIA_SOURCE_HASH_CHUNK_BYTES
    modifies buffer
    ensures result == Hashed(turns, size)
  {
    hide Hashed;
    var hasher: Bytes, position: nat, k := [], 0, 0;
    assert turns[0..] == turns;
    NothingFed(Hashed(turns, size));
    while position < size
      invariant position <= size && k <= |turns|
      invariant Hashed(turns, size) == After(hasher, Hashed(turns[k..], size - position))
      decreases size - position
    {
      FeedEnds(turns, k, size - position);
      if k == |turns| { return Err(HashTimeout); }
      var t := turns[k];
      if t.before.Some? { return Err(t.before.value); }
      var requested := Min(buffer.Length, size - position);
      if t.read.ReadFailed? { return Err(SourceUnavailable); }
      if t.after.Some? { return Err(t.after.value); }
      if t.read.Misreported? || |t.read.data| == 0 || |t.read.data| > requested { return Err(SourceChanged); }
      Fill(buffer, t.read.data);
      FeedStep(hasher, turns, k, size - position);
      hasher := hasher + buffer[..|t.read.data|];
      position := position + |t.read.data|;
      k := k + 1;
    }
    FeedEnds(turns, k, 0);
    assert hasher + [] == hasher;
    result := Ok(hasher);
  }

  method Fill(buffer: array<Byte>, data: Bytes)
    requires |data| <= buffer.Length
    modifies buffer
    ensures buffer[..|data|] == data
  {
    for i := 0 to |data|
      invariant buffer[..i] == data[..i]
    {
      buffer[i] := data[i];
      assert buffer[..i + 1] == buffer[..i] + [data[i]];
    }
  }

  /** What is fed in all, when `fed` already was. */
  function After(fed: Bytes, rest: Result<Bytes, Code>): Result<Bytes, Code> {
    if rest.Err? then rest else Ok(fed + rest.value)
  }

  lemma NothingFed(rest: Result<Bytes, Code>)
    ensures After([], rest) == rest
  {
    if rest.Ok? { assert [] + rest.value == rest.value; }
  }

  /** Where the loop stops: with all bytes, with no read left, or with a turn that fails. */
  lemma FeedEnds(turns: seq<Turn>, k: nat, wanted: nat)
    requires k <= |turns|
    ensures wanted == 0 ==> Hashed(turns[k..], wanted) == Ok([])
    ensures wanted > 0 && k == |turns| ==> Hashed(turns[k..], wanted) == Err(HashTimeout)
    ensures wanted > 0 && k < |turns| && TurnResult(turns[k], wanted).Err? ==>
              Hashed(turns[k..], wanted) == TurnResult(turns[k], wanted)
  {}

  lemma FeedStep(fed: Bytes, turns: seq<Turn>, k: nat, wanted: nat)
    requires k < |turns| && 0 < wanted && TurnResult(turns[k], wanted).Ok?
    ensures var data := TurnResult(turns[k], wanted).value;
            After(fed, Hashed(turns[k..], wanted)) == After(fed + data, Hashed(turns[k + 1..], wanted - |data|))
  {
    assert turns[k..][1..] == turns[k + 1..];
    var rest := Hashed(turns[k + 1..], wanted - |TurnResult(turns[k], wanted).value|);
    if rest.Ok? {
      var data := TurnResult(turns[k], wanted).value;
      assert fed + (data + rest.value) == fed + data + rest.value;
    }
  }

  // ---- What a success means ----

  function DataOf(turns: seq<Turn>): seq<Bytes> {
    seq(|turns|, i requires 0 <= i < |turns| => if turns[i].read.Delivered? then turns[i].read.data else [])
  }

  /** Success means that some first reads, none of them interrupted, together delivered exactly
      the announced size, and that they were fed in order, each once. */
  lemma {:induction false} SuccessFeedsWholeSize(turns: seq<Turn>, wanted: nat) returns (n: nat)
    requires Hashed(turns, wanted).Ok?
    ensures n <= |turns|
    ensures Hashed(turns, wanted).value == Flatten(DataOf(turns[..n]))
    ensures |Hashed(turns, wanted).value| == wanted
    ensures forall i :: 0 <= i < n ==> turns[i].before.None? && turns[i].read.Delivered? && turns[i].after.None?
    decreases |turns|
  {
    if wanted == 0 {
      n := 0;
    } else {
      var data := TurnResult(turns[0], wanted).value;
      var m := SuccessFeedsWholeSize(turns[1..], wanted - |data|);
      n := m + 1;
      assert turns[..n] == [turns[0]] + turns[1..][..m];
      assert DataOf(turns[..n]) == [data] + DataOf(turns[1..][..m]);
      forall i | 0 <= i < n
        ensures turns[i].before.None? && turns[i].read.Delivered? && turns[i].after.None?
      {
        if i > 0 { assert turns[i] == turns[1..][i - 1]; }
      }
    }
  }

  /** An uninterrupted turn that delivers something the buffer can hold. */
  predicate Feeds(t: Turn) {
    && t.before.None? && t.after.None? && t.read.Delivered?
    && 0 < |t.read.data| <= MEDIA_SOURCE_HASH_CHUNK_BYTES
  }

  /** The first n turns feed the hash, and `wanted` bytes in all. */
  ghost predicate Delivers(turns: seq<Turn>, wanted: nat, n: nat) {
    && n <= |turns| && (forall i | 0 <= i < n :: Feeds(turns[i]))
    && |Flatten(DataOf(turns[..n]))| == wanted
  }

  lemma DeliversStep(turns: seq<Turn>, wanted: nat, n: nat)
    requires turns != [] && Feeds(turns[0]) && |turns[0].read.data| <= wanted
    ensures Delivers(turns, wanted, n + 1) <==> Delivers(turns[1..], wanted - |turns[0].read.data|, n)
  {
    if n < |turns| {
      assert turns[..n + 1] == [turns[0]] + turns[1..][..n];
      assert DataOf(turns[..n + 1]) == [turns[0].read.data] + DataOf(turns[1..][..n]);
      assert DataOf(turns[..n + 1])[1..] == DataOf(turns[1..][..n]);
      assert forall i | 0 <= i < n :: turns[1..][i] == turns[i + 1];
      assert (forall i | 0 <= i < n + 1 :: Feeds(turns[i])) <==> (forall i | 0 <= i < n :: Feeds(turns[1..][i]));
    }
  }

  /** And that is all success takes: the loop succeeds if and only if some first reads deliver the
      announced size. */
  lemma {:induction false} SucceedsExactly(turns: seq<Turn>, wanted: nat)
    ensures Hashed(turns, wanted).Ok? <==> exists n: nat :: Delivers(turns, wanted, n)
    decreases |turns|
  {
    if wanted == 0 {
      assert turns[..0] == [];
      assert Delivers(turns, wanted, 0);
    } else if turns == [] || !Feeds(turns[0]) || wanted < |turns[0].read.data| {
      forall n: nat
        ensures !Delivers(turns, wanted, n)
      {
        NothingDelivered(turns, wanted, n);
      }
    } else {
      var rest := wanted - |turns[0].read.data|;
      SucceedsExactly(turns[1..], rest);
      if n: nat :| Delivers(turns[1..], rest, n) {
        DeliversStep(turns, wanted, n);
      }
      if n: nat :| Delivers(turns, wanted, n) {
        NoTurnNoBytes(turns, wanted);
        DeliversStep(turns, wanted, n - 1);
      }
    }
  }

  lemma NoTurnNoBytes(turns: seq<Turn>, wanted: nat)
    ensures Delivers(turns, wanted, 0) <==> wanted == 0
  {
    assert turns[..0] == [];
  }

  lemma NothingDelivered(turns: seq<Turn>, wanted: nat, n: nat)
    requires wanted > 0 && (turns == [] || !Feeds(turns[0]) || wanted < |turns[0].read.data|)
    ensures !Delivers(turns, wanted, n)
  {
    NoTurnNoBytes(turns, wanted);
    if 0 < n <= |turns| && Feeds(turns[0]) {
      assert DataOf(turns[..n])[0] == turns[0].read.data;
      assert |Flatten(DataOf(turns[..n]))| >= |turns[0].read.data|;
    }
  }

  /** A source is hashed exactly when it is a regular file of an admissible size, its reads deliver
      that size, and the last look at it, itself unhindered, finds a file of the same size. */
  lemma HashedExactly(initial: Stat, turns: seq<Turn>, ending: Ending)
    ensures HashSource(initial, turns, ending).Ok? <==>
              && initial.isFile && 0 < initial.size <= MEDIA_SOURCE_MAX_BYTES
              && (exists n: nat :: Delivers(turns, initial.size, n))
              && ending.before.None? && ending.after.None?
              && ending.stat.Ok? && ending.stat.value.isFile && ending.stat.value.size == initial.size
  {
    if StatObjection(initial).None? { SucceedsExactly(turns, initial.size); }
  }

  /** The first objection is the one reported: the first look, then the reads, then the last look. */
  lemma FirstObjectionWins(initial: Stat, turns: seq<Turn>, ending: Ending)
    ensures !initial.isFile ==> HashSource(initial, turns, ending) == Err(NotFile)
    ensures initial.isFile && initial.size <= 0 ==> HashSource(initial, turns, ending) == Err(Empty)
    ensures initial.isFile && initial.size > MEDIA_SOURCE_MAX_BYTES ==> HashSource(initial, turns, ending) == Err(TooLarge)
    ensures StatObjection(initial).None? && Hashed(turns, initial.size).Err? ==>
              HashSource(initial, turns, ending) == Hashed(turns, initial.size)
    ensures StatObjection(initial).None? && Hashed(turns, initial.size).Ok? ==>
              var outcome := HashSource(initial, turns, ending);
              if ending.before.Some? then outcome == Err(ending.before.value)
              else if ending.stat.Err? then outcome == Err(ending.stat.error)
              else if ending.after.Some? then outcome == Err(ending.after.value)
              else outcome.Ok? || outcome == Err(SourceChanged)
  {}

  /** How a read ends the loop: by the check before it, by failing, by the check after it, and else
      as a change of the source, when it did not deliver what it was asked for. */
  lemma ReadErrorsExactly(turns: seq<Turn>, wanted: nat)
    requires wanted > 0 && turns != [] && !(Feeds(turns[0]) && |turns[0].read.data| <= wanted)
    ensures var t := turns[0];
            Hashed(turns, wanted) == Err(
              if t.before.Some? then t.before.value
              else if t.read.ReadFailed? then SourceUnavailable
              else if t.after.Some? then t.after.value
              else SourceChanged)
  {}

  /** Until the content is complete, every read delivers its bytes at the position reached. */
  ghost predicate ReadsFrom(turns: seq<Turn>, content: Bytes, position: nat)
    decreases |turns|
  {
    position < |content| && turns != [] ==>
      && turns[0].read.Delivered?
      && position + |turns[0].read.data| <= |content|
      && turns[0].read.data == content[position..position + |turns[0].read.data|]
      && ReadsFrom(turns[1..], content, position + |turns[0].read.data|)
  }

  /** A successful hash is that of a content of the announced size if and only if every read that
      was fed delivered that content's bytes at its position, whatever lengths the reads came in. */
  lemma {:induction false} HashesContentExactly(turns: seq<Turn>, content: Bytes, position: nat)
    requires position <= |content| && Hashed(turns, |content| - position).Ok?
    ensures Hashed(turns, |content| - position).value == content[position..] <==> ReadsFrom(turns, content, position)
    decreases |turns|
  {
    if position < |content| {
      var data := turns[0].read.data;
      var next := position + |data|;
      var rest := Hashed(turns[1..], |content| - next).value;
      HashesContentExactly(turns[1..], content, next);
      assert content[position..] == content[position..next] + content[next..];
      if data + rest == content[position..] {
        assert data == (data + rest)[..|data|] && rest == (data + rest)[|data|..];
      }
    }
  }

  /** The size is all that is compared afterwards: a file rewritten in place between two reads is
      accepted with the hash of bytes it never held. */
  lemma SameSizeRewriteIsAccepted(a: Byte, b: Byte)
    requires a != b
    ensures var turns := [Turn(None, Delivered([a]), None), Turn(None, Delivered([b]), None)];
            var ending := Ending(None, Ok(Stat(true, 2)), None);
            HashSource(Stat(true, 2), turns, ending) == Ok([a, b])
            && ReadsFrom(turns[..1], [a, a], 0) && ReadsFrom(turns[1..], [b, b], 1)
  {
    var turns := [Turn(None, Delivered([a]), None), Turn(None, Delivered([b]), None)];
    assert turns[1..] == [turns[1]] && turns[1..][1..] == [] && turns[..1] == [turns[0]];
    assert [b] + [] == [b];
    assert TurnResult(turns[1], 1) == Ok([b]) && TurnResult(turns[0], 2) == Ok([a]);
    assert Hashed(turns[1..], 1) == Ok([b]) by { assert Hashed(turns[1..][1..], 0) == Ok([]); }
    assert [a] + [b] == [a, b];
  }
}
