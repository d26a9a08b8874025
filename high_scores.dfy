/**
 * `ui/high_scores.rs`: the five best results and their 175-byte stored
 * form. The cp866 name codec is not part of this model; `encodeName` and
 * `decodeName` stand for `string_to_cp866_lossy` and `string_from_cp866`.
 */
module HighScores {
  import opened Ints
  import opened Wrappers
  import opened Characteristics

  const SCORE_COUNT: nat := 5
  const RECORD_SIZE: nat := 35
  const BUFFER_SIZE: nat := SCORE_COUNT * RECORD_SIZE
  const MAX_NAME_LENGTH: nat := 32

  datatype HighScore = HighScore(name: string, score: Money)

  /** `default_high_scores`. */
  function DefaultHighScores(): (r: seq<HighScore>)
    ensures |r| == SCORE_COUNT
    ensures r[0].score.amount == 400 && r[SCORE_COUNT - 1].score.amount == 20
    ensures forall i, j :: 0 <= i < j < SCORE_COUNT ==> r[i].score.amount > r[j].score.amount
  {
    [HighScore("Коля", Money(400)),
     HighScore("Саша", Money(280)),
     HighScore("Эндрю", Money(180)),
     HighScore("Паша", Money(100)),
     HighScore("Гриша", Money(20))]
  }

  function Zeros(n: nat): (r: seq<byte>)
    ensures |r| == n && forall k :: 0 <= k < n ==> r[k] == 0
  {
    seq(n, _ => 0)
  }

  /** `i16::to_le_bytes`: the two's-complement value, low byte first. */
  function I16ToLe(x: i16): (r: seq<byte>)
    ensures |r| == 2
  {
    var u := if x < 0 then x + U16_LIMIT else x;
    [u % U8_LIMIT, u / U8_LIMIT]
  }

  /** `i16::from_le_bytes`. */
  function I16FromLe(low: byte, high: byte): i16
  {
    var u := low + high * U8_LIMIT;
    if u >= 0x8000 then u - U16_LIMIT else u
  }

  /** A score survives being stored as two bytes. */
  lemma I16LeRoundTrip(x: i16)
    ensures I16FromLe(I16ToLe(x)[0], I16ToLe(x)[1]) == x
  {
  }

  /** Any two bytes survive being read as a score and stored again. */
  lemma LeI16RoundTrip(low: byte, high: byte)
    ensures I16ToLe(I16FromLe(low, high)) == [low, high]
  {
  }

  /** One record: the name length, the name padded with zeros to 32 bytes, then the score. */
  function EncodeRecord(nameBytes: seq<byte>, score: Money): (r: seq<byte>)
    requires |nameBytes| <= MAX_NAME_LENGTH
    ensures |r| == RECORD_SIZE
  {
    [|nameBytes|] + nameBytes + Zeros(MAX_NAME_LENGTH - |nameBytes|) + I16ToLe(score.amount)
  }

  /** The stored form of the first `|scores|` records. */
  function EncodeAll(scores: seq<HighScore>, encodeName: string -> seq<byte>): (r: seq<byte>)
    requires forall k :: 0 <= k < |scores| ==> |encodeName(scores[k].name)| <= MAX_NAME_LENGTH
    ensures |r| == RECORD_SIZE * |scores|
  {
    if scores == [] then []
    else
      var last := scores[|scores| - 1];
      EncodeAll(scores[..|scores| - 1], encodeName) + EncodeRecord(encodeName(last.name), last.score)
  }

  /** One record read back: at most 32 name bytes, and the score after the name field. */
  function DecodeRecord(record: seq<byte>, decodeName: seq<byte> -> string): HighScore
    requires |record| == RECORD_SIZE
  {
    var nameLength := if record[0] < MAX_NAME_LENGTH then record[0] else MAX_NAME_LENGTH;
    HighScore(decodeName(record[1..1 + nameLength]),
      Money(I16FromLe(record[1 + MAX_NAME_LENGTH], record[2 + MAX_NAME_LENGTH])))
  }

  function RecordAt(buffer: seq<byte>, i: nat): (r: seq<byte>)
    requires RECORD_SIZE * (i + 1) <= |buffer|
    ensures |r| == RECORD_SIZE
  {
    buffer[RECORD_SIZE * i..RECORD_SIZE * (i + 1)]
  }

  /** `decode` on a buffer: nothing if it is short, else the five records it starts with. */
  function Decoded(buffer: seq<byte>, decodeName: seq<byte> -> string): (r: Option<seq<HighScore>>)
    ensures r.Some? <==> |buffer| >= BUFFER_SIZE
    ensures r.Some? ==> |r.value| == SCORE_COUNT
  {
    if |buffer| < BUFFER_SIZE then None
    else Some(seq(SCORE_COUNT, i requires 0 <= i < SCORE_COUNT => DecodeRecord(RecordAt(buffer, i), decodeName)))
  }

  lemma {:induction false} RecordOfEncodeAll(scores: seq<HighScore>, encodeName: string -> seq<byte>, i: nat)
    requires forall k :: 0 <= k < |scores| ==> |encodeName(scores[k].name)| <= MAX_NAME_LENGTH
    requires i < |scores|
    ensures RecordAt(EncodeAll(scores, encodeName), i) == EncodeRecord(encodeName(scores[i].name), scores[i].score)
    decreases |scores|
  {
    var init := scores[..|scores| - 1];
    var all := EncodeAll(scores, encodeName);
    var front := EncodeAll(init, encodeName);
    if i < |scores| - 1 {
      RecordOfEncodeAll(init, encodeName, i);
      assert all[RECORD_SIZE * i..RECORD_SIZE * (i + 1)] == front[RECORD_SIZE * i..RECORD_SIZE * (i + 1)];
      assert init[i] == scores[i];
    } else {
      assert all[RECORD_SIZE * i..] == EncodeRecord(encodeName(scores[i].name), scores[i].score);
    }
  }

  /** A stored record reads back as the score, and as the codec's reading of the name bytes. */
  lemma DecodeEncodeRecord(nameBytes: seq<byte>, score: Money, decodeName: seq<byte> -> string)
    requires |nameBytes| <= MAX_NAME_LENGTH
    ensures DecodeRecord(EncodeRecord(nameBytes, score), decodeName) == HighScore(decodeName(nameBytes), score)
  {
    var r := EncodeRecord(nameBytes, score);
    assert r[1..1 + |nameBytes|] == nameBytes;
    assert r[1 + MAX_NAME_LENGTH] == I16ToLe(score.amount)[0];
    assert r[2 + MAX_NAME_LENGTH] == I16ToLe(score.amount)[1];
    I16LeRoundTrip(score.amount);
  }

  /**
   * `decode` after `encode`: every score comes back, and every name comes
   * back as whatever the codec makes of its encoded bytes; with a codec
   * that reads back what it writes, the names come back too.
   */
  lemma DecodeEncode(scores: seq<HighScore>, encodeName: string -> seq<byte>, decodeName: seq<byte> -> string)
    requires |scores| == SCORE_COUNT
    requires forall k :: 0 <= k < |scores| ==> |encodeName(scores[k].name)| <= MAX_NAME_LENGTH
    ensures Decoded(EncodeAll(scores, encodeName), decodeName).Some?
    ensures forall i :: 0 <= i < SCORE_COUNT ==>
      Decoded(EncodeAll(scores, encodeName), decodeName).value[i]
        == HighScore(decodeName(encodeName(scores[i].name)), scores[i].score)
    ensures (forall k :: 0 <= k < |scores| ==> decodeName(encodeName(scores[k].name)) == scores[k].name) ==>
      Decoded(EncodeAll(scores, encodeName), decodeName).value == scores
  {
    var buffer := EncodeAll(scores, encodeName);
    forall i | 0 <= i < SCORE_COUNT
      ensures DecodeRecord(RecordAt(buffer, i), decodeName) == HighScore(decodeName(encodeName(scores[i].name)), scores[i].score)
    {
      RecordOfEncodeAll(scores, encodeName, i);
      DecodeEncodeRecord(encodeName(scores[i].name), scores[i].score, decodeName);
    }
  }

  /** `encode`: fills a zeroed 175-byte buffer record by record. */
  method Encode(scores: seq<HighScore>, encodeName: string -> seq<byte>) returns (result: array<byte>)
    requires |scores| == SCORE_COUNT
    requires forall k :: 0 <= k < |scores| ==> |encodeName(scores[k].name)| <= MAX_NAME_LENGTH
    ensures fresh(result)
    ensures result[..] == EncodeAll(scores, encodeName)
  {
    result := new byte[BUFFER_SIZE](_ => 0);
    for i := 0 to SCORE_COUNT
      invariant result[..] == EncodeAll(scores[..i], encodeName) + Zeros(RECORD_SIZE * (SCORE_COUNT - i))
    {
      var nameBytes := encodeName(scores[i].name);
      WriteRecord(result, RECORD_SIZE * i, nameBytes, scores[i].score);
      assert scores[..i + 1][..i] == scores[..i];
      assert result[..] == EncodeAll(scores[..i + 1], encodeName) + Zeros(RECORD_SIZE * (SCORE_COUNT - (i + 1)));
    }
    assert scores[..SCORE_COUNT] == scores;
  }

  /** Writes one record over the zeros at `offset`, leaving the rest of the buffer alone. */
  method WriteRecord(buffer: array<byte>, offset: nat, nameBytes: seq<byte>, score: Money)
    requires |nameBytes| <= MAX_NAME_LENGTH
    requires offset + RECORD_SIZE <= buffer.Length
    requires forall k :: offset <= k < offset + RECORD_SIZE ==> buffer[k] == 0
    modifies buffer
    ensures buffer[..] == old(buffer[..offset]) + EncodeRecord(nameBytes, score) + old(buffer[offset + RECORD_SIZE..])
  {
    buffer[offset] := |nameBytes|;
    for j := 0 to |nameBytes|
      invariant forall k | 0 <= k < buffer.Length ::
        buffer[k] == (if offset + 1 <= k < offset + 1 + j then nameBytes[k - offset - 1]
                      else if k == offset then |nameBytes| else old(buffer[k]))
    {
      buffer[offset + 1 + j] := nameBytes[j];
    }
    var le := I16ToLe(score.amount);
    buffer[offset + 1 + MAX_NAME_LENGTH] := le[0];
    buffer[offset + 2 + MAX_NAME_LENGTH] := le[1];
    ghost var target := old(buffer[..offset]) + EncodeRecord(nameBytes, score) + old(buffer[offset + RECORD_SIZE..]);
    forall k | 0 <= k < buffer.Length
      ensures buffer[k] == target[k]
    {
      RecordByteAt(old(buffer[..]), offset, nameBytes, score, k);
    }
  }

  /** Byte `k` of a buffer after one record is written at `offset`. */
  lemma RecordByteAt(before: seq<byte>, offset: nat, nameBytes: seq<byte>, score: Money, k: nat)
    requires |nameBytes| <= MAX_NAME_LENGTH
    requires offset + RECORD_SIZE <= |before| && k < |before|
    ensures var target := before[..offset] + EncodeRecord(nameBytes, score) + before[offset + RECORD_SIZE..];
      target[k] == (if k < offset || offset + RECORD_SIZE <= k then before[k]
                    else if k == offset then |nameBytes|
                    else if k < offset + 1 + |nameBytes| then nameBytes[k - offset - 1]
                    else if k < offset + 1 + MAX_NAME_LENGTH then 0
                    else I16ToLe(score.amount)[k - offset - 1 - MAX_NAME_LENGTH])
  {
  }

  lemma RestStartsWithRecord(buffer: seq<byte>, i: nat)
    requires RECORD_SIZE * (i + 1) <= |buffer|
    ensures buffer[RECORD_SIZE * i..][..RECORD_SIZE] == RecordAt(buffer, i)
  {
  }

  /** Reading the fields off the front of the remaining bytes reads the record. */
  lemma ReadFieldsOfRecord(start: seq<byte>, record: seq<byte>, decodeName: seq<byte> -> string)
    requires |record| == RECORD_SIZE && RECORD_SIZE <= |start| && start[..RECORD_SIZE] == record
    ensures var n := if start[0] < MAX_NAME_LENGTH then start[0] else MAX_NAME_LENGTH;
      DecodeRecord(record, decodeName) ==
        HighScore(decodeName(start[1..][..n]), Money(I16FromLe(start[1..][MAX_NAME_LENGTH], start[1..][MAX_NAME_LENGTH + 1])))
  {
    var n := if start[0] < MAX_NAME_LENGTH then start[0] else MAX_NAME_LENGTH;
    assert start[1..][..n] == record[1..1 + n];
  }

  /** `decode`: checks the length, then reads the records one after another. */
  method Decode(buffer: seq<byte>, decodeName: seq<byte> -> string) returns (r: Option<seq<HighScore>>)
    ensures r == Decoded(buffer, decodeName)
  {
    if |buffer| < BUFFER_SIZE {
      return None;
    }
    var loaded := DefaultHighScores();
    var rest := buffer;
    for i := 0 to SCORE_COUNT
      invariant |loaded| == SCORE_COUNT
      invariant rest == buffer[RECORD_SIZE * i..]
      invariant forall k :: 0 <= k < i ==> loaded[k] == DecodeRecord(RecordAt(buffer, k), decodeName)
    {
      ghost var record := RecordAt(buffer, i);
      RestStartsWithRecord(buffer, i);
      var nameLength := if rest[0] < MAX_NAME_LENGTH then rest[0] else MAX_NAME_LENGTH;
      ghost var start := rest;
      rest := rest[1..];
      var name := decodeName(rest[..nameLength]);
      var score := I16FromLe(rest[MAX_NAME_LENGTH], rest[MAX_NAME_LENGTH + 1]);
      ReadFieldsOfRecord(start, record, decodeName);
      rest := rest[MAX_NAME_LENGTH + 2..];
      assert rest == buffer[RECORD_SIZE * (i + 1)..];
      loaded := loaded[i := HighScore(name, Money(score))];
    }
    assert loaded == Decoded(buffer, decodeName).value;
    return Some(loaded);
  }
}
