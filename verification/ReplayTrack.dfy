/** The BSV v2 input track: its layout as an encoder, and the counter that walks it. */
module ReplayTrack {
  import opened Wrappers

  type byte = b: int | 0 <= b < 256

  const HEADER_SIZE := 40
  const KEY_EVENT_SIZE := 12
  const INPUT_EVENT_SIZE := 8
  const REGULAR_FRAME: byte := 102
  const CHECKPOINT2_FRAME: byte := 67

  /** Little-endian numbers, as in the struct formats "<H" and "<I". */
  function U16(b: seq<byte>): (n: nat)
    requires |b| == 2
    ensures n < 0x1_0000
  {
    b[0] as int + 0x100 * b[1] as int
  }

  function U32(b: seq<byte>): (n: nat)
    requires |b| == 4
    ensures n < 0x1_0000_0000
  {
    b[0] as int + 0x100 * b[1] as int + 0x1_0000 * b[2] as int + 0x100_0000 * b[3] as int
  }

  /** The lowest byte first. */
  function LittleEndian(n: nat, width: nat): (b: seq<byte>)
    ensures |b| == width
  {
    if width == 0 then [] else [n % 0x100] + LittleEndian(n / 0x100, width - 1)
  }

  function U16Bytes(n: nat): (b: seq<byte>)
    requires n < 0x1_0000
    ensures |b| == 2 && U16(b) == n
  {
    assert LittleEndian(n, 2) == [n % 0x100, n / 0x100];
    LittleEndian(n, 2)
  }

  function U32Bytes(n: nat): (b: seq<byte>)
    requires n < 0x1_0000_0000
    ensures |b| == 4 && U32(b) == n
  {
    var n1 := n / 0x100;
    var n2 := n1 / 0x100;
    assert LittleEndian(n2, 2) == [n2 % 0x100, n2 / 0x100];
    assert LittleEndian(n, 4) == [n % 0x100, n1 % 0x100, n2 % 0x100, n2 / 0x100];
    LittleEndian(n, 4)
  }

  lemma U16Unique(b: seq<byte>)
    requires |b| == 2
    ensures U16Bytes(U16(b)) == b
  {
  }

  lemma DigitsOut(low: int, high: int)
    requires 0 <= low < 0x100
    ensures (low + 0x100 * high) % 0x100 == low && (low + 0x100 * high) / 0x100 == high
  {
  }

  lemma LowByte(low: byte, high: nat, width: nat)
    requires width > 0
    ensures LittleEndian(low as int + 0x100 * high, width) == [low] + LittleEndian(high, width - 1)
  {
    DigitsOut(low, high);
  }

  lemma {:induction false} U32Unique(b: seq<byte>)
    requires |b| == 4
    ensures U32Bytes(U32(b)) == b
  {
    var n2 := b[2] as int + 0x100 * b[3] as int;
    var n1 := b[1] as int + 0x100 * n2;
    LowByte(b[0], n1, 4);
    LowByte(b[1], n2, 3);
    LowByte(b[2], b[3], 2);
    LowByte(b[3], 0, 1);
    hide LittleEndian;
    assert U32(b) == b[0] as int + 0x100 * n1;
    assert LittleEndian(0, 0) == [];
    assert b == [b[0]] + ([b[1]] + ([b[2]] + ([b[3]] + [])));
  }

  datatype Tail =
    | Regular
    | Checkpoint2(compression: byte, encoding: byte, uncompressedSize: nat, encodedSize: nat, payload: seq<byte>)

  datatype Frame = Frame(backref: nat, keys: seq<byte>, inputs: seq<byte>, tail: Tail)

  /** What the layout can hold: whole key and input events, and counts and sizes that fit their fields. */
  predicate EncodableTail(t: Tail) {
    t.Checkpoint2? ==>
      t.uncompressedSize < 0x1_0000_0000 && t.encodedSize < 0x1_0000_0000 && |t.payload| < 0x1_0000_0000
  }

  predicate Encodable(f: Frame) {
    && f.backref < 0x1_0000_0000
    && |f.keys| % 12 == 0 && |f.keys| / 12 < 0x100
    && |f.inputs| % 8 == 0 && |f.inputs| / 8 < 0x1_0000
    && EncodableTail(f.tail)
  }

  function EncodeTail(t: Tail): seq<byte>
    requires EncodableTail(t)
  {
    match t
    case Regular => [102]
    case Checkpoint2(compression, encoding, uncompressedSize, encodedSize, payload) =>
      [67] + ([compression] + ([encoding] + (U32Bytes(uncompressedSize)
        + (U32Bytes(encodedSize) + (U32Bytes(|payload|) + payload)))))
  }

  function EncodeKeys(backref: nat, keys: seq<byte>): seq<byte>
    requires backref < 0x1_0000_0000 && |keys| / 12 < 0x100
  {
    U32Bytes(backref) + ([|keys| / 12] + keys)
  }

  function EncodeInputs(inputs: seq<byte>): seq<byte>
    requires |inputs| / 8 < 0x1_0000
  {
    U16Bytes(|inputs| / 8) + inputs
  }

  function Encode(f: Frame): seq<byte>
    requires Encodable(f)
  {
    EncodeKeys(f.backref, f.keys) + (EncodeInputs(f.inputs) + EncodeTail(f.tail))
  }

  predicate AllEncodable(frames: seq<Frame>) {
    forall i :: 0 <= i < |frames| ==> Encodable(frames[i])
  }

  function EncodeAll(frames: seq<Frame>): seq<byte>
    requires AllEncodable(frames)
  {
    if frames == [] then [] else Encode(frames[0]) + EncodeAll(frames[1..])
  }

  /** What comes before the track: ten header words, the seventh of which counts the frames, and the initial
      checkpoint, whose payload is as long as the third of its sizes says. */
  datatype Head = Head(words: seq<nat>, compression: byte, encoding: byte, uncompressedSize: nat, encodedSize: nat,
                       payload: seq<byte>)

  predicate EncodableHead(h: Head) {
    && |h.words| == 10 && (forall i :: 0 <= i < |h.words| ==> h.words[i] < 0x1_0000_0000)
    && h.uncompressedSize < 0x1_0000_0000 && h.encodedSize < 0x1_0000_0000 && |h.payload| < 0x1_0000_0000
  }

  function EncodeWords(words: seq<nat>): (e: seq<byte>)
    ensures |e| == 4 * |words|
  {
    if words == [] then [] else EncodeWords(words[..|words| - 1]) + LittleEndian(words[|words| - 1], 4)
  }

  function EncodeHead(h: Head): seq<byte>
    requires EncodableHead(h)
  {
    EncodeWords(h.words) + ([h.compression, h.encoding] + (LittleEndian(h.uncompressedSize, 4)
      + (LittleEndian(h.encodedSize, 4) + (LittleEndian(|h.payload|, 4) + h.payload))))
  }

  /** The data at `p` is `e`. */
  predicate Holds(data: seq<byte>, p: nat, e: seq<byte>) {
    p + |e| <= |data| && data[p..p + |e|] == e
  }

  lemma HoldsParts(data: seq<byte>, p: nat, a: seq<byte>, b: seq<byte>)
    ensures Holds(data, p, a + b) <==> Holds(data, p, a) && Holds(data, p + |a|, b)
  {
    if p + |a| + |b| <= |data| {
      var whole := data[p..p + |a + b|];
      assert whole == data[p..p + |a|] + data[p + |a|..p + |a| + |b|];
      assert whole[..|a|] == data[p..p + |a|] && whole[|a|..] == data[p + |a|..p + |a| + |b|];
      assert (a + b)[..|a|] == a && (a + b)[|a|..] == b;
    }
  }

  /** A record is read in three pieces, each of which may run past the end of the data. */
  function ReadKeys(data: seq<byte>, p: nat): Option<(nat, seq<byte>, nat)>
    requires p <= |data|
  {
    if p + 5 > |data| then None
    else
      var end := p + 5 + data[p + 4] as int * KEY_EVENT_SIZE;
      if end > |data| then None else Some((U32(data[p..p + 4]), data[p + 5..end], end))
  }

  function ReadInputs(data: seq<byte>, p: nat): Option<(seq<byte>, nat)>
    requires p <= |data|
  {
    if p + 2 > |data| then None
    else
      var end := p + 2 + U16(data[p..p + 2]) * INPUT_EVENT_SIZE;
      if end > |data| then None else Some((data[p + 2..end], end))
  }

  /** How far a tail or a record reaches. It breaks off where the data ends or at an unexpected token;
      `marked` says whether a checkpoint token had been read by then. */
  datatype Reading<T> = Whole(value: T, next: nat) | Broken(marked: bool)

  function ReadTail(data: seq<byte>, p: nat): Reading<Tail>
    requires p <= |data|
  {
    if p + 1 > |data| then Broken(false)
    else if data[p] == REGULAR_FRAME then Whole(Regular, p + 1)
    else if data[p] != CHECKPOINT2_FRAME then Broken(false)
    else if p + 15 > |data| then Broken(true)
    else
      var end := p + 15 + U32(data[p + 11..p + 15]);
      if end > |data| then Broken(true)
      else Whole(Checkpoint2(data[p + 1], data[p + 2], U32(data[p + 3..p + 7]), U32(data[p + 7..p + 11]),
                             data[p + 15..end]), end)
  }

  function ReadFrame(data: seq<byte>, p: nat): Reading<Frame>
    requires p <= |data|
  {
    var keys := ReadKeys(data, p);
    if keys.None? then Broken(false)
    else
      var inputs := ReadInputs(data, keys.value.2);
      if inputs.None? then Broken(false)
      else
        match ReadTail(data, inputs.value.1)
        case Broken(marked) => Broken(marked)
        case Whole(tail, next) => Whole(Frame(keys.value.0, keys.value.1, inputs.value.0, tail), next)
  }

  lemma {:induction false} ReadKeysSound(data: seq<byte>, p: nat)
    requires p <= |data| && ReadKeys(data, p).Some?
    ensures var (backref, keys, next) := ReadKeys(data, p).value;
            && backref < 0x1_0000_0000 && |keys| % KEY_EVENT_SIZE == 0 && |keys| / KEY_EVENT_SIZE < 0x100
            && Holds(data, p, EncodeKeys(backref, keys)) && next == p + |EncodeKeys(backref, keys)|
  {
    var (backref, keys, next) := ReadKeys(data, p).value;
    U32Unique(data[p..p + 4]);
    assert data[p..next] == data[p..p + 4] + ([data[p + 4]] + data[p + 5..next]);
  }

  lemma ReadKeysComplete(data: seq<byte>, p: nat, backref: nat, keys: seq<byte>)
    requires backref < 0x1_0000_0000 && |keys| % KEY_EVENT_SIZE == 0 && |keys| / KEY_EVENT_SIZE < 0x100
    requires Holds(data, p, EncodeKeys(backref, keys))
    ensures ReadKeys(data, p) == Some((backref, keys, p + |EncodeKeys(backref, keys)|))
  {
    HoldsParts(data, p, U32Bytes(backref), [|keys| / KEY_EVENT_SIZE] + keys);
    HoldsParts(data, p + 4, [|keys| / KEY_EVENT_SIZE], keys);
    assert data[p + 4] == data[p + 4..p + 5][0];
  }

  lemma ReadInputsSound(data: seq<byte>, p: nat)
    requires p <= |data| && ReadInputs(data, p).Some?
    ensures var (inputs, next) := ReadInputs(data, p).value;
            && |inputs| % INPUT_EVENT_SIZE == 0 && |inputs| / INPUT_EVENT_SIZE < 0x1_0000
            && Holds(data, p, EncodeInputs(inputs)) && next == p + |EncodeInputs(inputs)|
  {
    var (inputs, next) := ReadInputs(data, p).value;
    U16Unique(data[p..p + 2]);
    assert data[p..next] == data[p..p + 2] + data[p + 2..next];
  }

  lemma ReadInputsComplete(data: seq<byte>, p: nat, inputs: seq<byte>)
    requires |inputs| % INPUT_EVENT_SIZE == 0 && |inputs| / INPUT_EVENT_SIZE < 0x1_0000
    requires Holds(data, p, EncodeInputs(inputs))
    ensures ReadInputs(data, p) == Some((inputs, p + |EncodeInputs(inputs)|))
  {
    HoldsParts(data, p, U16Bytes(|inputs| / INPUT_EVENT_SIZE), inputs);
  }

  lemma {:induction false} ReadTailSound(data: seq<byte>, p: nat)
    requires p <= |data| && ReadTail(data, p).Whole?
    ensures var Whole(tail, next) := ReadTail(data, p);
            EncodableTail(tail) && Holds(data, p, EncodeTail(tail)) && next == p + |EncodeTail(tail)|
  {
    var Whole(tail, next) := ReadTail(data, p);
    if tail.Checkpoint2? {
      U32Unique(data[p + 3..p + 7]);
      U32Unique(data[p + 7..p + 11]);
      U32Unique(data[p + 11..p + 15]);
      assert data[p..next] == [data[p]] + ([data[p + 1]] + ([data[p + 2]] + (data[p + 3..p + 7]
               + (data[p + 7..p + 11] + (data[p + 11..p + 15] + data[p + 15..next])))));
    }
  }

  lemma ReadTailComplete(data: seq<byte>, p: nat, t: Tail)
    requires EncodableTail(t) && Holds(data, p, EncodeTail(t))
    ensures ReadTail(data, p) == Whole(t, p + |EncodeTail(t)|)
  {
    var e := EncodeTail(t);
    var there := data[p..p + |e|];
    forall i | 0 <= i < |e|
      ensures data[p + i] == e[i]
    {
      assert there[i] == e[i];
    }
    if t.Checkpoint2? {
      assert data[p + 3..p + 7] == e[3..7] == U32Bytes(t.uncompressedSize);
      assert data[p + 7..p + 11] == e[7..11] == U32Bytes(t.encodedSize);
      assert data[p + 11..p + 15] == e[11..15] == U32Bytes(|t.payload|);
      assert data[p + 15..p + 15 + |t.payload|] == e[15..] == t.payload;
    }
  }

  lemma ReadKeysWithin(data: seq<byte>, p: nat)
    requires p <= |data| && ReadKeys(data, p).Some?
    ensures p < ReadKeys(data, p).value.2 <= |data|
  {
  }

  lemma ReadInputsWithin(data: seq<byte>, p: nat)
    requires p <= |data| && ReadInputs(data, p).Some?
    ensures p < ReadInputs(data, p).value.1 <= |data|
  {
  }

  /** A whole record is an encodable frame, and the data it was read from is just its encoding. */
  lemma {:induction false} ReadFrameSound(data: seq<byte>, p: nat)
    requires p <= |data| && ReadFrame(data, p).Whole?
    ensures var Whole(f, next) := ReadFrame(data, p);
            Encodable(f) && Holds(data, p, Encode(f)) && next == p + |Encode(f)|
  {
    hide EncodeKeys, EncodeInputs, EncodeTail, ReadKeys, ReadInputs, ReadTail;
    var Whole(f, next) := ReadFrame(data, p);
    ReadKeysSound(data, p);
    ReadKeysWithin(data, p);
    var inputsAt := ReadKeys(data, p).value.2;
    ReadInputsSound(data, inputsAt);
    ReadInputsWithin(data, inputsAt);
    ReadTailSound(data, ReadInputs(data, inputsAt).value.1);
    HoldsParts(data, inputsAt, EncodeInputs(f.inputs), EncodeTail(f.tail));
    HoldsParts(data, p, EncodeKeys(f.backref, f.keys), EncodeInputs(f.inputs) + EncodeTail(f.tail));
  }

  /** Whatever follows an encoded frame, the frame is read back. */
  lemma ReadFrameComplete(data: seq<byte>, p: nat, f: Frame)
    requires Encodable(f) && Holds(data, p, Encode(f))
    ensures ReadFrame(data, p) == Whole(f, p + |Encode(f)|)
  {
    hide EncodeKeys, EncodeInputs, EncodeTail, ReadKeys, ReadInputs, ReadTail;
    var inputsAt := p + |EncodeKeys(f.backref, f.keys)|;
    HoldsParts(data, p, EncodeKeys(f.backref, f.keys), EncodeInputs(f.inputs) + EncodeTail(f.tail));
    HoldsParts(data, inputsAt, EncodeInputs(f.inputs), EncodeTail(f.tail));
    ReadKeysComplete(data, p, f.backref, f.keys);
    ReadInputsComplete(data, inputsAt, f.inputs);
    ReadTailComplete(data, inputsAt + |EncodeInputs(f.inputs)|, f.tail);
  }

  /** What the track from `p` on holds: the frames read back, how many carry a checkpoint, and whether the
      record that broke the walk off had shown a checkpoint token. */
  datatype Track = Track(frames: seq<Frame>, marked: bool)

  lemma ReadAdvances(data: seq<byte>, p: nat)
    requires p < |data| && ReadFrame(data, p).Whole?
    ensures p < ReadFrame(data, p).next <= |data|
  {
    ReadFrameSound(data, p);
  }

  function ReadTrack(data: seq<byte>, p: nat): Track
    decreases |data| - p
  {
    if p >= |data| then Track([], false)
    else
      match ReadFrame(data, p)
      case Broken(marked) => Track([], marked)
      case Whole(f, next) =>
        ReadAdvances(data, p);
        var rest := ReadTrack(data, next);
        Track([f] + rest.frames, rest.marked)
  }

  function CheckpointFrames(frames: seq<Frame>): nat {
    if frames == [] then 0 else (if frames[0].tail.Checkpoint2? then 1 else 0) + CheckpointFrames(frames[1..])
  }

  datatype Counts = Counts(headerFrameCount: nat, parsedFrames: nat, checkpointFrames: nat)

  /** What a header that is too short raises. */
  datatype HeaderError = HeaderTruncated | CheckpointBytesMissing | CheckpointSizesMissing

  /** Where the first frame record starts: past the header and the initial checkpoint. */
  function TrackStart(data: seq<byte>): nat
    requires |data| >= HEADER_SIZE + 14
  {
    HEADER_SIZE + 14 + U32(data[HEADER_SIZE + 10..HEADER_SIZE + 14])
  }

  /** The counts of any data, by the track it holds; the extra checkpoint is that of a broken record that had
      shown its token. */
  function Counted(data: seq<byte>): Result<Counts, HeaderError> {
    if |data| < HEADER_SIZE then Err(HeaderTruncated)
    else if |data| < HEADER_SIZE + 2 then Err(CheckpointBytesMissing)
    else if |data| < HEADER_SIZE + 14 then Err(CheckpointSizesMissing)
    else
      var track := ReadTrack(data, TrackStart(data));
      Ok(Counts(U32(data[24..28]), |track.frames|, CheckpointFrames(track.frames) + if track.marked then 1 else 0))
  }

  lemma ReadEnds(data: seq<byte>, p: nat)
    requires p >= |data|
    ensures ReadTrack(data, p) == Track([], false) && CheckpointFrames([]) == 0
  {
  }

  lemma ReadUnfolds(data: seq<byte>, p: nat)
    requires p < |data|
    ensures var track := ReadTrack(data, p); var reading := ReadFrame(data, p);
            && (reading.Broken? ==> track == Track([], reading.marked) && CheckpointFrames(track.frames) == 0)
            && (reading.Whole? ==>
                  && p < reading.next <= |data|
                  && |track.frames| == 1 + |ReadTrack(data, reading.next).frames|
                  && CheckpointFrames(track.frames) == CheckpointFrames(ReadTrack(data, reading.next).frames)
                                                       + (if reading.value.tail.Checkpoint2? then 1 else 0)
                  && track.marked == ReadTrack(data, reading.next).marked)
  {
    if ReadFrame(data, p).Whole? {
      ReadAdvances(data, p);
      var rest := ReadTrack(data, ReadFrame(data, p).next);
      assert ([ReadFrame(data, p).value] + rest.frames)[1..] == rest.frames;
    }
  }

  /** The token and what follows it. */
  method SkipTail(data: seq<byte>, start: nat) returns (whole: bool, checkpoint: bool, p: nat)
    requires start <= |data|
    ensures var reading := ReadTail(data, start);
            && whole == reading.Whole?
            && checkpoint == (if reading.Whole? then reading.value.Checkpoint2? else reading.marked)
            && (whole ==> p == reading.next)
  {
    whole, checkpoint, p := false, false, start;
    if p + 1 > |data| {
      return;
    }
    var token := data[p];
    p := p + 1;
    if token == CHECKPOINT2_FRAME {
      checkpoint := true;
      if p + 2 > |data| {
        return;
      }
      p := p + 2;
      if p + 12 > |data| {
        return;
      }
      var compressedSize := U32(data[p + 8..p + 12]);
      p := p + 12;
      if p + compressedSize > |data| {
        return;
      }
      p := p + compressedSize;
    } else if token != REGULAR_FRAME {
      return;
    }
    whole := true;
  }

  /** One pass of the walk. `checkpoint` is set as soon as a checkpoint token is read, before its sizes and
      payload are known to be there. */
  method SkipRecord(data: seq<byte>, start: nat) returns (whole: bool, checkpoint: bool, p: nat)
    requires start < |data|
    ensures var reading := ReadFrame(data, start);
            && whole == reading.Whole?
            && checkpoint == (if reading.Whole? then reading.value.tail.Checkpoint2? else reading.marked)
            && (whole ==> p == reading.next)
  {
    hide ReadTail;
    whole, checkpoint, p := false, false, start;
    if p + 4 > |data| {
      return;
    }
    p := p + 4;
    if p + 1 > |data| {
      return;
    }
    var keysSize := data[p] as int * KEY_EVENT_SIZE;
    p := p + 1;
    if p + keysSize > |data| {
      return;
    }
    p := p + keysSize;
    if p + 2 > |data| {
      return;
    }
    var inputsSize := U16(data[p..p + 2]) * INPUT_EVENT_SIZE;
    p := p + 2;
    if p + inputsSize > |data| {
      return;
    }
    p := p + inputsSize;
    whole, checkpoint, p := SkipTail(data, p);
  }

  /** Walks the frame records with the offset `p`; every read is checked against the end of the data. */
  method Parse(data: seq<byte>) returns (r: Result<Counts, HeaderError>)
    ensures r == Counted(data)
    ensures r == Err(HeaderTruncated) <==> |data| < 40
    ensures r == Err(CheckpointBytesMissing) <==> 40 <= |data| < 42
    ensures r == Err(CheckpointSizesMissing) <==> 42 <= |data| < 54
  {
    if |data| < HEADER_SIZE {
      return Err(HeaderTruncated);
    }
    var frameCount := U32(data[24..28]);
    var p := HEADER_SIZE;
    if p + 2 > |data| {
      return Err(CheckpointBytesMissing);
    }
    p := p + 2;
    if p + 12 > |data| {
      return Err(CheckpointSizesMissing);
    }
    var initialSize := U32(data[p + 8..p + 12]);
    p := p + 12;
    p := p + initialSize;

    var frames, checkpointFrames := 0, 0;
    ghost var track := ReadTrack(data, p);
    assert p == TrackStart(data);
    hide ReadFrame, ReadTrack, U32, TrackStart, CheckpointFrames;
    while p < |data|
      invariant frames + |ReadTrack(data, p).frames| == |track.frames|
      invariant checkpointFrames + CheckpointFrames(ReadTrack(data, p).frames) == CheckpointFrames(track.frames)
      invariant ReadTrack(data, p).marked == track.marked
      decreases |data| - p
    {
      ReadUnfolds(data, p);
      var whole, checkpoint, next := SkipRecord(data, p);
      if checkpoint {
        checkpointFrames := checkpointFrames + 1;
      }
      if !whole {
        return Ok(Counts(frameCount, frames, checkpointFrames));
      }
      p := next;
      frames := frames + 1;
    }
    ReadEnds(data, p);
    return Ok(Counts(frameCount, frames, checkpointFrames));
  }

  /** The counted frames are real: read back to back, their encodings are what the data starts with. */
  lemma {:induction false} TrackSound(data: seq<byte>, p: nat)
    requires p <= |data|
    ensures var frames := ReadTrack(data, p).frames;
            AllEncodable(frames) && Holds(data, p, EncodeAll(frames))
    decreases |data| - p
  {
    hide Encode, ReadFrame;
    if p < |data| && ReadFrame(data, p).Whole? {
      var Whole(f, next) := ReadFrame(data, p);
      ReadFrameSound(data, p);
      ReadAdvances(data, p);
      TrackSound(data, next);
      var rest := ReadTrack(data, next).frames;
      assert ReadTrack(data, p).frames == [f] + rest && ([f] + rest)[1..] == rest;
      HoldsParts(data, p, Encode(f), EncodeAll(rest));
    }
  }

  lemma EncodingNotEmpty(f: Frame)
    requires Encodable(f)
    ensures |Encode(f)| > 0
  {
  }

  /** An encoded frame at `p` is the first frame of the track there. */
  lemma {:induction false} TrackStep(data: seq<byte>, p: nat, f: Frame)
    requires Encodable(f) && Holds(data, p, Encode(f))
    ensures ReadTrack(data, p).frames == [f] + ReadTrack(data, p + |Encode(f)|).frames
  {
    hide Encode, ReadFrame;
    ReadFrameComplete(data, p, f);
    EncodingNotEmpty(f);
    ReadAdvances(data, p);
  }

  /** No frame is missed: whatever encodable frames the data at `p` starts with are counted, in order. */
  lemma {:induction false} TrackComplete(data: seq<byte>, p: nat, frames: seq<Frame>)
    requires p <= |data| && AllEncodable(frames) && Holds(data, p, EncodeAll(frames))
    ensures frames <= ReadTrack(data, p).frames
    decreases |frames|
  {
    hide Encode, ReadFrame, ReadTrack;
    if frames != [] {
      var first := frames[0];
      HoldsParts(data, p, Encode(first), EncodeAll(frames[1..]));
      TrackStep(data, p, first);
      TrackComplete(data, p + |Encode(first)|, frames[1..]);
      assert frames == [first] + frames[1..];
    }
  }

  ghost predicate StartsWithFrames(data: seq<byte>, p: nat, n: nat) {
    exists frames: seq<Frame> :: |frames| == n && AllEncodable(frames) && Holds(data, p, EncodeAll(frames))
  }

  lemma {:induction false} EncodeAllConcat(a: seq<Frame>, b: seq<Frame>)
    requires AllEncodable(a) && AllEncodable(b)
    ensures AllEncodable(a + b) && EncodeAll(a + b) == EncodeAll(a) + EncodeAll(b)
  {
    hide Encode;
    if a == [] {
      assert a + b == b;
    } else {
      assert (a + b)[0] == a[0] && (a + b)[1..] == a[1..] + b;
      EncodeAllConcat(a[1..], b);
      assert EncodeAll(a + b) == Encode(a[0]) + (EncodeAll(a[1..]) + EncodeAll(b));
    }
  }

  lemma {:induction false} PrefixEncoded(frames: seq<Frame>, k: nat)
    requires AllEncodable(frames) && k <= |frames|
    ensures EncodeAll(frames) == EncodeAll(frames[..k]) + EncodeAll(frames[k..])
    ensures k < |frames| ==> |EncodeAll(frames[..k])| + |Encode(frames[k])| <= |EncodeAll(frames)|
  {
    hide Encode;
    EncodeAllConcat(frames[..k], frames[k..]);
    assert frames[..k] + frames[k..] == frames;
  }

  /** For any data at all, the count is the length of the longest frame sequence it starts with. */
  lemma CountIsLongestPrefix(data: seq<byte>, p: nat, n: nat)
    requires p <= |data|
    ensures n <= |ReadTrack(data, p).frames| <==> StartsWithFrames(data, p, n)
  {
    hide Encode;
    TrackSound(data, p);
    var read := ReadTrack(data, p).frames;
    if n <= |read| {
      PrefixEncoded(read, n);
      HoldsParts(data, p, EncodeAll(read[..n]), EncodeAll(read[n..]));
    }
    if StartsWithFrames(data, p, n) {
      var frames: seq<Frame> :| |frames| == n && AllEncodable(frames) && Holds(data, p, EncodeAll(frames));
      TrackComplete(data, p, frames);
    }
  }

  /** A track cut after `k` whole frames and some proper part of the next one, or of nothing. */
  predicate CutWithin(frames: seq<Frame>, k: nat, cut: nat)
    requires AllEncodable(frames) && k <= |frames|
  {
    var whole := |EncodeAll(frames[..k])|;
    if k == |frames| then cut == whole else whole <= cut < whole + |Encode(frames[k])|
  }

  /** The header and initial checkpoint of a file, whose sizes say that the track starts at their end. */
  predicate Preamble(head: seq<byte>) {
    |head| >= HEADER_SIZE + 14 && TrackStart(head) == |head|
  }

  lemma TrackAfterPreamble(head: seq<byte>, rest: seq<byte>)
    requires Preamble(head)
    ensures TrackStart(head + rest) == |head|
  {
    assert (head + rest)[HEADER_SIZE + 10..HEADER_SIZE + 14] == head[HEADER_SIZE + 10..HEADER_SIZE + 14];
  }

  lemma HoldsShifted(head: seq<byte>, rest: seq<byte>, p: nat, e: seq<byte>)
    ensures Holds(head + rest, |head| + p, e) <==> Holds(rest, p, e)
  {
    if p + |e| <= |rest| {
      assert (head + rest)[|head| + p..|head| + p + |e|] == rest[p..p + |e|];
    }
  }

  lemma HoldsWithin(whole: seq<byte>, cut: nat, e: seq<byte>)
    requires cut <= |whole| && |e| <= cut
    ensures Holds(whole[..cut], 0, e) <==> Holds(whole, 0, e)
  {
    assert whole[..cut][0..|e|] == whole[0..|e|];
  }

  /** Where the walk breaks off decides whether a broken record had shown its token. */
  lemma {:induction false} MarkedAtTheBreak(data: seq<byte>, p: nat)
    requires p <= |data| && AllEncodable(ReadTrack(data, p).frames)
    ensures var end := p + |EncodeAll(ReadTrack(data, p).frames)|;
            end <= |data| && (ReadTrack(data, p).marked <==> end < |data| && ReadFrame(data, end) == Broken(true))
    decreases |data| - p
  {
    hide Encode, ReadFrame;
    if p < |data| {
      var reading := ReadFrame(data, p);
      if reading.Whole? {
        ReadAdvances(data, p);
        ReadFrameSound(data, p);
        var rest := ReadTrack(data, reading.next).frames;
        assert ReadTrack(data, p).frames == [reading.value] + rest;
        assert ([reading.value] + rest)[1..] == rest;
        MarkedAtTheBreak(data, reading.next);
      }
    }
  }

  lemma WholeTrack(frames: seq<Frame>)
    requires AllEncodable(frames)
    ensures ReadTrack(EncodeAll(frames), 0) == Track(frames, false)
  {
    hide Encode, ReadFrame, EncodeAll, ReadTrack;
    var all := EncodeAll(frames);
    assert all[0..|all|] == all;
    TrackComplete(all, 0, frames);
    TrackSound(all, 0);
    var read := ReadTrack(all, 0).frames;
    if |read| > |frames| {
      assert read[..|frames|] == frames;
      PrefixEncoded(read, |frames|);
      EncodingNotEmpty(read[|frames|]);
      assert false;
    }
    assert read == frames;
    MarkedAtTheBreak(all, 0);
  }

  /** Truncation is detected exactly: in a file cut at any point of its track, the walk counts the frames
      that lie wholly before the cut, no more and no fewer; in the uncut file it counts them all. */
  lemma {:induction false} CutTrackCountsWholeFrames(head: seq<byte>, frames: seq<Frame>, k: nat, cut: nat)
    requires Preamble(head) && AllEncodable(frames) && k <= |frames| && CutWithin(frames, k, cut)
    ensures cut <= |EncodeAll(frames)|
    ensures var file := head + EncodeAll(frames)[..cut];
            TrackStart(file) == |head| && ReadTrack(file, |head|).frames == frames[..k]
  {
    hide Encode, EncodeAll, ReadFrame, ReadTrack, TrackStart;
    var all := EncodeAll(frames);
    PrefixEncoded(frames, k);
    assert frames[..|frames|] == frames;
    var data := all[..cut];
    var file := head + data;
    TrackAfterPreamble(head, data);
    HoldsWithin(all, cut, EncodeAll(frames[..k]));
    HoldsShifted(head, data, 0, EncodeAll(frames[..k]));
    TrackComplete(file, |head|, frames[..k]);
    TrackSound(file, |head|);
    var read := ReadTrack(file, |head|).frames;
    HoldsShifted(head, data, 0, EncodeAll(read));
    HoldsWithin(all, cut, EncodeAll(read));
    WholeTrack(frames);
    TrackComplete(all, 0, read);
    assert frames[..k] <= read <= frames;
    if |read| > k {
      assert read[..k] == frames[..k] && read[k] == frames[k];
      PrefixEncoded(read, k);
      assert false;
    }
  }

  /** The data from `p` on is a proper part of `e`. */
  predicate Cut(data: seq<byte>, p: nat, e: seq<byte>) {
    p <= |data| < p + |e| && data[p..] == e[..|data| - p]
  }

  lemma CutParts(data: seq<byte>, p: nat, a: seq<byte>, b: seq<byte>)
    requires Cut(data, p, a + b)
    ensures Cut(data, p, a) || (Holds(data, p, a) && Cut(data, p + |a|, b))
  {
    var there := data[p..];
    if |data| < p + |a| {
      assert (a + b)[..|data| - p] == a[..|data| - p];
    } else {
      assert there[..|a|] == data[p..p + |a|] && (a + b)[..|a|] == a;
      assert there[|a|..] == data[p + |a|..] && (a + b)[..|data| - p][|a|..] == b[..|data| - p - |a|];
    }
  }

  lemma KeysCut(data: seq<byte>, p: nat, backref: nat, keys: seq<byte>)
    requires backref < 0x1_0000_0000 && |keys| % KEY_EVENT_SIZE == 0 && |keys| / KEY_EVENT_SIZE < 0x100
    requires Cut(data, p, EncodeKeys(backref, keys))
    ensures ReadKeys(data, p).None?
  {
    if p + 5 <= |data| {
      assert data[p + 4] == data[p..][4];
    }
  }

  lemma InputsCut(data: seq<byte>, p: nat, inputs: seq<byte>)
    requires |inputs| % INPUT_EVENT_SIZE == 0 && |inputs| / INPUT_EVENT_SIZE < 0x1_0000
    requires Cut(data, p, EncodeInputs(inputs))
    ensures ReadInputs(data, p).None?
  {
    if p + 2 <= |data| {
      assert data[p..p + 2] == data[p..][..2] == EncodeInputs(inputs)[..2] == U16Bytes(|inputs| / INPUT_EVENT_SIZE);
    }
  }

  lemma TailCut(data: seq<byte>, p: nat, t: Tail)
    requires EncodableTail(t) && Cut(data, p, EncodeTail(t))
    ensures ReadTail(data, p) == Broken(t.Checkpoint2? && p < |data|)
  {
    var e := EncodeTail(t);
    if p < |data| {
      assert data[p] == data[p..][0] == e[0];
      if p + 15 <= |data| {
        assert data[p + 11..p + 15] == data[p..][11..15] == e[11..15] == U32Bytes(|t.payload|);
      }
    }
  }

  /** A frame cut anywhere is not read, and is marked exactly when it is a checkpoint frame cut after its token. */
  lemma FrameCut(data: seq<byte>, p: nat, f: Frame)
    requires Encodable(f) && Cut(data, p, Encode(f))
    ensures ReadFrame(data, p) ==
              Broken(f.tail.Checkpoint2? && p + |EncodeKeys(f.backref, f.keys)| + |EncodeInputs(f.inputs)| < |data|)
  {
    hide EncodeKeys, EncodeInputs, EncodeTail, ReadKeys, ReadInputs, ReadTail, Holds;
    var inputsAt := p + |EncodeKeys(f.backref, f.keys)|;
    CutParts(data, p, EncodeKeys(f.backref, f.keys), EncodeInputs(f.inputs) + EncodeTail(f.tail));
    if Cut(data, p, EncodeKeys(f.backref, f.keys)) {
      KeysCut(data, p, f.backref, f.keys);
    } else {
      ReadKeysComplete(data, p, f.backref, f.keys);
      CutParts(data, inputsAt, EncodeInputs(f.inputs), EncodeTail(f.tail));
      if Cut(data, inputsAt, EncodeInputs(f.inputs)) {
        InputsCut(data, inputsAt, f.inputs);
      } else {
        ReadInputsComplete(data, inputsAt, f.inputs);
        TailCut(data, inputsAt + |EncodeInputs(f.inputs)|, f.tail);
      }
    }
  }

  /** After the whole frames, a cut track goes on with a proper part of the next one. */
  lemma {:induction false} CutAtFrame(frames: seq<Frame>, k: nat, cut: nat)
    requires AllEncodable(frames) && k < |frames| && CutWithin(frames, k, cut)
    ensures cut <= |EncodeAll(frames)|
    ensures Cut(EncodeAll(frames)[..cut], |EncodeAll(frames[..k])|, Encode(frames[k]))
  {
    hide Encode;
    var all := EncodeAll(frames);
    var end := |EncodeAll(frames[..k])|;
    PrefixEncoded(frames, k);
    var rest := frames[k..];
    assert rest[0] == frames[k];
    assert all[end..] == EncodeAll(rest) == Encode(frames[k]) + EncodeAll(rest[1..]);
    assert all[..cut][end..] == all[end..][..cut - end];
  }

  /** What a truncated file reports as checkpoints: one for each whole checkpoint frame, and one more
      exactly when the cut frame is a checkpoint frame cut after its token. */
  lemma {:induction false} CheckpointsOvercountByMark(head: seq<byte>, frames: seq<Frame>, k: nat, cut: nat)
    requires Preamble(head) && AllEncodable(frames) && k < |frames| && CutWithin(frames, k, cut)
    ensures cut <= |EncodeAll(frames)|
    ensures var f := frames[k];
            var tokenAt := |EncodeAll(frames[..k])| + |EncodeKeys(f.backref, f.keys)| + |EncodeInputs(f.inputs)|;
            ReadTrack(head + EncodeAll(frames)[..cut], |head|).marked <==> f.tail.Checkpoint2? && tokenAt < cut
  {
    hide Encode, ReadFrame, EncodeAll, ReadTrack;
    CutTrackCountsWholeFrames(head, frames, k, cut);
    var data := EncodeAll(frames)[..cut];
    var file := head + data;
    var end := |EncodeAll(frames[..k])|;
    MarkedAtTheBreak(file, |head|);
    CutAtFrame(frames, k, cut);
    assert file[|head| + end..] == data[end..];
    FrameCut(file, |head| + end, frames[k]);
  }

  /** How many of the frames lie wholly before the cut. */
  function WholeBefore(frames: seq<Frame>, cut: nat): (k: nat)
    requires AllEncodable(frames)
    ensures k <= |frames|
  {
    if frames == [] || |Encode(frames[0])| > cut then 0
    else 1 + WholeBefore(frames[1..], cut - |Encode(frames[0])|)
  }

  /** Every cut of a track lies within some frame, or at its end. */
  lemma {:induction false} EveryCutWithin(frames: seq<Frame>, cut: nat)
    requires AllEncodable(frames) && cut <= |EncodeAll(frames)|
    ensures CutWithin(frames, WholeBefore(frames, cut), cut)
  {
    hide Encode;
    var k := WholeBefore(frames, cut);
    if frames == [] || |Encode(frames[0])| > cut {
      assert frames[..0] == [] && EncodeAll([]) == [];
    } else {
      var rest := frames[1..];
      EveryCutWithin(rest, cut - |Encode(frames[0])|);
      assert frames[..k][1..] == rest[..k - 1] && frames[..k][0] == frames[0];
      assert EncodeAll(frames[..k]) == Encode(frames[0]) + EncodeAll(rest[..k - 1]);
      assert k < |frames| ==> frames[k] == rest[k - 1];
    }
  }

  predicate CutAfterToken(frames: seq<Frame>, k: nat, cut: nat)
    requires AllEncodable(frames) && k <= |frames|
  {
    k < |frames| && frames[k].tail.Checkpoint2?
    && |EncodeAll(frames[..k])| + |EncodeKeys(frames[k].backref, frames[k].keys)| + |EncodeInputs(frames[k].inputs)| < cut
  }

  lemma UncutNotMarked(head: seq<byte>, frames: seq<Frame>)
    requires Preamble(head) && AllEncodable(frames)
    ensures !ReadTrack(head + EncodeAll(frames), |head|).marked
  {
    hide Encode, EncodeAll, ReadTrack, ReadFrame;
    var all := EncodeAll(frames);
    assert frames[..|frames|] == frames && all[..|all|] == all;
    CutTrackCountsWholeFrames(head, frames, |frames|, |all|);
    MarkedAtTheBreak(head + all, |head|);
  }

  lemma {:induction false} CutAfterPreamble(head: seq<byte>, frames: seq<Frame>, cut: nat)
    requires Preamble(head) && AllEncodable(frames) && cut <= |EncodeAll(frames)|
    ensures var k := WholeBefore(frames, cut);
            Counted(head + EncodeAll(frames)[..cut])
            == Ok(Counts(U32(head[24..28]), k, CheckpointFrames(frames[..k])
                         + if CutAfterToken(frames, k, cut) then 1 else 0))
    ensures cut == |EncodeAll(frames)| <==> WholeBefore(frames, cut) == |frames|
  {
    hide Encode, EncodeAll, ReadTrack, ReadFrame, TrackStart, CheckpointFrames;
    var k := WholeBefore(frames, cut);
    EveryCutWithin(frames, cut);
    CutTrackCountsWholeFrames(head, frames, k, cut);
    var file := head + EncodeAll(frames)[..cut];
    assert file[24..28] == head[24..28];
    PrefixEncoded(frames, k);
    assert frames[..|frames|] == frames;
    if k < |frames| {
      CheckpointsOvercountByMark(head, frames, k, cut);
    } else {
      UncutNotMarked(head, frames);
      assert EncodeAll(frames)[..cut] == EncodeAll(frames);
    }
  }

  lemma {:induction false} WordAt(words: seq<nat>, k: nat)
    requires k < |words|
    ensures EncodeWords(words)[4 * k..4 * k + 4] == LittleEndian(words[k], 4)
  {
    var last := |words| - 1;
    var before := EncodeWords(words[..last]);
    var e := before + LittleEndian(words[last], 4);
    assert e == EncodeWords(words);
    if k < last {
      WordAt(words[..last], k);
      assert e[4 * k..4 * k + 4] == before[4 * k..4 * k + 4];
    } else {
      assert e[|before|..|before| + 4] == LittleEndian(words[last], 4);
    }
  }

  /** An encoded head is a preamble with its frame count in place. */
  lemma HeadPlaced(h: Head)
    requires EncodableHead(h)
    ensures Preamble(EncodeHead(h)) && U32(EncodeHead(h)[24..28]) == h.words[6]
  {
    var e, words := EncodeHead(h), EncodeWords(h.words);
    var sizes := LittleEndian(h.uncompressedSize, 4) + LittleEndian(h.encodedSize, 4);
    assert e == words + [h.compression, h.encoding] + sizes + U32Bytes(|h.payload|) + h.payload;
    assert e[50..54] == U32Bytes(|h.payload|);
    WordAt(h.words, 6);
    assert e[24..28] == words[24..28] == U32Bytes(h.words[6]);
  }

  /** What the program reports of any file cut at any point of its track: the header's count, the number of
      frames that lie wholly before the cut, and the checkpoints among these, plus one exactly when the frame
      that was cut is a checkpoint frame cut after its token. Of an uncut file it counts every frame. */
  lemma {:induction false} CutFileCounts(h: Head, frames: seq<Frame>, cut: nat)
    requires EncodableHead(h) && AllEncodable(frames) && cut <= |EncodeAll(frames)|
    ensures var k := WholeBefore(frames, cut);
            Counted(EncodeHead(h) + EncodeAll(frames)[..cut])
            == Ok(Counts(h.words[6], k, CheckpointFrames(frames[..k])
                         + if CutAfterToken(frames, k, cut) then 1 else 0))
    ensures cut == |EncodeAll(frames)| <==> WholeBefore(frames, cut) == |frames|
  {
    hide EncodeHead, Preamble, Counted, WholeBefore, CutAfterToken, EncodeAll;
    HeadPlaced(h);
    CutAfterPreamble(EncodeHead(h), frames, cut);
  }
}
