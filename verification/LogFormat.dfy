/**
 * The byte format of a stream log: what the server's file writer appends for each streamer message
 * and what the reader's `read_block` recognises. The two halves are proved inverse to each other.
 */
module LogFormat {
  import opened Bytes

  type TaskId = U32
  type InstanceId = U32

  /** One execution of a task, whose output is one stream. */
  type Stream = (TaskId, InstanceId)

  /** What a worker's streamer sends. */
  datatype Message =
    | Start(task: TaskId, inst: InstanceId)
    | Data(task: TaskId, inst: InstanceId, channel: U32, data: seq<Byte>)
    | End(task: TaskId, inst: InstanceId)

  const BLOCK_STREAM_START: Byte := 0
  const BLOCK_STREAM_CHUNK: Byte := 1
  const BLOCK_STREAM_END: Byte := 2

  /** "HQ:log" */
  const MAGIC: seq<Byte> := [72, 81, 58, 108, 111, 103]
  const VERSION: U32 := 0

  const HEADER_SIZE := 26

  function ReservedWord(): (r: seq<Byte>) { [0, 0, 0, 0, 0, 0, 0, 0] }

  function Header(): (h: seq<Byte>)
    ensures |h| == HEADER_SIZE
  {
    MAGIC + PutU32(VERSION) + ReservedWord() + ReservedWord()
  }

  /** The length field is `data.len() as u32`, which truncates. */
  function LengthField(data: seq<Byte>): (n: U32) { |data| % 0x1_0000_0000 }

  /** The block the writer appends for one message. */
  function Encode(m: Message): (r: seq<Byte>)
    ensures |r| == if m.Data? then 17 + |m.data| else 9
  {
    match m
    case Start(t, i) => [BLOCK_STREAM_START] + PutU32(t) + PutU32(i)
    case Data(t, i, c, d) =>
      [BLOCK_STREAM_CHUNK] + PutU32(t) + PutU32(i) + PutU32(c) + PutU32(LengthField(d)) + d
    case End(t, i) => [BLOCK_STREAM_END] + PutU32(t) + PutU32(i)
  }

  function EncodeAll(ms: seq<Message>): (r: seq<Byte>)
  {
    if ms == [] then [] else EncodeAll(ms[..|ms| - 1]) + Encode(ms[|ms| - 1])
  }

  function Log(ms: seq<Message>): seq<Byte> { Header() + EncodeAll(ms) }

  /** A block as `read_block` returns it; a chunk additionally remembers where its data begins. */
  datatype Entry =
    | StartAt(task: TaskId, inst: InstanceId)
    | ChunkAt(task: TaskId, inst: InstanceId, channel: U32, pos: nat, size: U32)
    | EndAt(task: TaskId, inst: InstanceId)

  datatype BlockResult = Eof | Invalid | Block(entry: Entry, next: nat)

  /**
   * One `read_block` at cursor position `pos`. End of file is only clean on the tag byte; inside a
   * block it is an error, and so is an unknown tag.
   */
  function BlockAt(file: seq<Byte>, pos: nat): (r: BlockResult)
    ensures r.Block? ==> pos < r.next <= |file|
    ensures r.Block? && r.entry.ChunkAt? ==> r.entry.pos == r.next
    ensures r.Eof? <==> |file| <= pos
  {
    if |file| <= pos then Eof
    else if file[pos] == BLOCK_STREAM_CHUNK then
      if |file| < pos + 17 then Invalid
      else Block(ChunkAt(GetU32(file[pos + 1..pos + 5]), GetU32(file[pos + 5..pos + 9]),
                         GetU32(file[pos + 9..pos + 13]), pos + 17, GetU32(file[pos + 13..pos + 17])), pos + 17)
    else if file[pos] == BLOCK_STREAM_START || file[pos] == BLOCK_STREAM_END then
      if |file| < pos + 9 then Invalid
      else
        var t, i := GetU32(file[pos + 1..pos + 5]), GetU32(file[pos + 5..pos + 9]);
        Block(if file[pos] == BLOCK_STREAM_START then StartAt(t, i) else EndAt(t, i), pos + 9)
    else Invalid
  }

  /** Where the cursor stands after the block's data has been read or skipped by `seek_relative`. */
  function After(e: Entry, next: nat): nat
  {
    if e.ChunkAt? then next + e.size else next
  }

  /** The cursor may have been moved past the end of the file by `seek_relative`. */
  function Left(file: seq<Byte>, pos: nat): nat { if pos < |file| then |file| - pos else 0 }

  function Prepend(es: seq<Entry>, r: Option<seq<Entry>>): Option<seq<Entry>>
  {
    if r.None? then None else Some(es + r.value)
  }

  /** A plain sequential scan from `pos` to the end of the file; None when some block is invalid. */
  function Scan(file: seq<Byte>, pos: nat): Option<seq<Entry>>
    decreases Left(file, pos)
  {
    match BlockAt(file, pos)
    case Eof => Some([])
    case Invalid => None
    case Block(e, next) => Prepend([e], Scan(file, After(e, next)))
  }

  /** The bytes of a chunk that are really in the file. */
  function Body(file: seq<Byte>, pos: nat, size: nat): seq<Byte>
  {
    if |file| <= pos then [] else if |file| < pos + size then file[pos..] else file[pos..pos + size]
  }

  function MessageOf(file: seq<Byte>, e: Entry): Message
  {
    match e
    case StartAt(t, i) => Start(t, i)
    case ChunkAt(t, i, c, p, n) => Data(t, i, c, Body(file, p, n))
    case EndAt(t, i) => End(t, i)
  }

  function Decode(file: seq<Byte>, es: seq<Entry>): (ms: seq<Message>)
    ensures |ms| == |es|
  {
    seq(|es|, k requires 0 <= k < |es| => MessageOf(file, es[k]))
  }

  /** The chunk's data is completely in the file. */
  predicate Whole(file: seq<Byte>, e: Entry)
  {
    e.ChunkAt? ==> e.pos + e.size <= |file|
  }

  predicate AllWhole(file: seq<Byte>, es: seq<Entry>)
  {
    forall k :: 0 <= k < |es| ==> Whole(file, es[k])
  }

  /** The data of a message fits the 32-bit length field. */
  predicate Fits(m: Message)
  {
    m.Data? ==> |m.data| < 0x1_0000_0000
  }

  predicate AllFit(ms: seq<Message>)
  {
    forall k :: 0 <= k < |ms| ==> Fits(ms[k])
  }

  function EntryOf(m: Message, pos: nat): (e: Entry)
  {
    match m
    case Start(t, i) => StartAt(t, i)
    case Data(t, i, c, d) => ChunkAt(t, i, c, pos + 17, LengthField(d))
    case End(t, i) => EndAt(t, i)
  }

  /** The entries a scan finds when the blocks of `ms` begin at `base`. */
  function EntriesOf(ms: seq<Message>, base: nat): (es: seq<Entry>)
    ensures |es| == |ms|
  {
    if ms == [] then []
    else
      var prev := ms[..|ms| - 1];
      EntriesOf(prev, base) + [EntryOf(ms[|ms| - 1], base + |EncodeAll(prev)|)]
  }

  /** The format itself, byte by byte, on one small log. */
  lemma LiteralLog()
    ensures Log([Start(7, 258), Data(7, 258, 1, [104, 105]), End(7, 258)])
         == [72, 81, 58, 108, 111, 103, 0, 0, 0, 0, 0, 0, 0, 0, 0, 0, 0, 0, 0, 0, 0, 0, 0, 0, 0, 0]
            + ([0, 0, 0, 0, 7, 0, 0, 1, 2]
               + [1, 0, 0, 0, 7, 0, 0, 1, 2, 0, 0, 0, 1, 0, 0, 0, 2, 104, 105]
               + [2, 0, 0, 0, 7, 0, 0, 1, 2])
  {
    hide Encode, Header, EncodeAll;
    LiteralHeader();
    LiteralBlocks();
    ThreeBlocks(Start(7, 258), Data(7, 258, 1, [104, 105]), End(7, 258));
  }

  lemma SmallWords()
    ensures PutU32(0) == [0, 0, 0, 0] && PutU32(1) == [0, 0, 0, 1] && PutU32(2) == [0, 0, 0, 2]
    ensures PutU32(7) == [0, 0, 0, 7] && PutU32(258) == [0, 0, 1, 2]
  {
  }

  lemma LiteralHeader()
    ensures Header() == [72, 81, 58, 108, 111, 103, 0, 0, 0, 0, 0, 0, 0, 0, 0, 0, 0, 0, 0, 0, 0, 0, 0, 0, 0, 0]
  {
    hide PutU32;
    SmallWords();
  }

  lemma LiteralBlocks()
    ensures Encode(Start(7, 258)) == [0, 0, 0, 0, 7, 0, 0, 1, 2]
    ensures Encode(Data(7, 258, 1, [104, 105])) == [1, 0, 0, 0, 7, 0, 0, 1, 2, 0, 0, 0, 1, 0, 0, 0, 2, 104, 105]
    ensures Encode(End(7, 258)) == [2, 0, 0, 0, 7, 0, 0, 1, 2]
  {
    hide PutU32;
    SmallWords();
  }

  lemma ThreeBlocks(a: Message, b: Message, c: Message)
    ensures EncodeAll([a, b, c]) == Encode(a) + Encode(b) + Encode(c)
  {
    hide Encode;
    assert [a, b, c][..2] == [a, b] && [a, b][..1] == [a] && [a][..0] == [];
    assert EncodeAll([a]) == [] + Encode(a) == Encode(a);
  }

  // ---- Writing and then scanning -------------------------------------------------------------

  /** The bytes of one encoded block are read back as that block, whatever surrounds it. */
  lemma BlockRoundTrip(file: seq<Byte>, pos: nat, m: Message)
    requires Fits(m)
    requires Holds(file, pos, Encode(m))
    ensures BlockAt(file, pos).Block?
    ensures BlockAt(file, pos).entry == EntryOf(m, pos)
    ensures After(BlockAt(file, pos).entry, BlockAt(file, pos).next) == pos + |Encode(m)|
    ensures MessageOf(file, EntryOf(m, pos)) == m && Whole(file, EntryOf(m, pos))
  {
    hide PutU32, GetU32;
    var enc := Encode(m);
    assert forall k :: 0 <= k < |enc| ==> file[pos + k] == enc[k] by {
      forall k | 0 <= k < |enc| ensures file[pos + k] == enc[k] {
        assert file[pos..pos + |enc|][k] == enc[k];
      }
    }
    assert file[pos + 1..pos + 5] == enc[1..5] == PutU32(m.task);
    assert file[pos + 5..pos + 9] == enc[5..9] == PutU32(m.inst);
    GetPutU32(m.task);
    GetPutU32(m.inst);
    if m.Data? {
      assert file[pos + 9..pos + 13] == enc[9..13] == PutU32(m.channel);
      assert file[pos + 13..pos + 17] == enc[13..17] == PutU32(|m.data|);
      GetPutU32(m.channel);
      GetPutU32(|m.data|);
      assert file[pos + 17..pos + 17 + |m.data|] == enc[17..] == m.data;
    }
  }

  lemma PrependAssoc(a: seq<Entry>, b: seq<Entry>, r: Option<seq<Entry>>)
    ensures Prepend(a, Prepend(b, r)) == Prepend(a + b, r)
  {
    if r.Some? { assert a + (b + r.value) == a + b + r.value; }
  }

  /** The file holds the bytes `part` at position `pos`. */
  predicate Holds(file: seq<Byte>, pos: nat, part: seq<Byte>)
  {
    pos + |part| <= |file| && file[pos..pos + |part|] == part
  }

  lemma HoldsSplit(file: seq<Byte>, pos: nat, a: seq<Byte>, b: seq<Byte>)
    requires Holds(file, pos, a + b)
    ensures Holds(file, pos, a) && Holds(file, pos + |a|, b)
  {
    var ab := file[pos..pos + |a + b|];
    assert ab[..|a|] == a && ab[|a|..] == b;
    assert file[pos..pos + |a|] == ab[..|a|];
    assert file[pos + |a|..pos + |a| + |b|] == ab[|a|..];
  }

  /**
   * Any file that holds the blocks of `ms` at `base` scans to exactly their entries, and then goes
   * on with whatever follows them.
   */
  lemma {:induction false} ScanBlocks(file: seq<Byte>, base: nat, ms: seq<Message>)
    requires AllFit(ms)
    requires Holds(file, base, EncodeAll(ms))
    ensures Scan(file, base) == Prepend(EntriesOf(ms, base), Scan(file, base + |EncodeAll(ms)|))
    ensures Decode(file, EntriesOf(ms, base)) == ms
    ensures AllWhole(file, EntriesOf(ms, base))
  {
    hide Encode, BlockAt, Holds, Whole, Fits, MessageOf, EntryOf, Decode, AllWhole;
    if ms == [] {
      NothingDecoded(file);
      var rest := Scan(file, base);
      assert rest.Some? ==> [] + rest.value == rest.value;
    } else {
      var prev, m := ms[..|ms| - 1], ms[|ms| - 1];
      var mid := base + |EncodeAll(prev)|;
      var es := EntriesOf(prev, base);
      HoldsSplit(file, base, EncodeAll(prev), Encode(m));
      ScanBlocks(file, base, prev);
      BlockRoundTrip(file, mid, m);
      PrependAssoc(es, [EntryOf(m, mid)], Scan(file, mid + |Encode(m)|));
      WholeSnoc(file, es, EntryOf(m, mid), m);
    }
  }

  lemma NothingDecoded(file: seq<Byte>)
    ensures Decode(file, []) == [] && AllWhole(file, [])
  {
  }

  lemma WholeSnoc(file: seq<Byte>, es: seq<Entry>, e: Entry, m: Message)
    requires MessageOf(file, e) == m && Whole(file, e) && AllWhole(file, es)
    ensures Decode(file, es + [e]) == Decode(file, es) + [m] && AllWhole(file, es + [e])
  {
    hide MessageOf, Whole;
  }

  /** Scanning the bytes the writer produced gives back the messages, in order, and nothing else. */
  lemma LogRoundTrip(ms: seq<Message>)
    requires AllFit(ms)
    ensures Scan(Log(ms), HEADER_SIZE) == Some(EntriesOf(ms, HEADER_SIZE))
    ensures Decode(Log(ms), EntriesOf(ms, HEADER_SIZE)) == ms
    ensures AllWhole(Log(ms), EntriesOf(ms, HEADER_SIZE))
  {
    hide EncodeAll, BlockAt, PutU32;
    var file := Log(ms);
    assert file[HEADER_SIZE..HEADER_SIZE + |EncodeAll(ms)|] == EncodeAll(ms);
    ScanBlocks(file, HEADER_SIZE, ms);
    assert EntriesOf(ms, HEADER_SIZE) + [] == EntriesOf(ms, HEADER_SIZE);
  }

  // ---- Scanning and then writing -------------------------------------------------------------

  lemma {:induction false} EncodeAllAppend(a: seq<Message>, b: seq<Message>)
    ensures EncodeAll(a + b) == EncodeAll(a) + EncodeAll(b)
  {
    hide Encode;
    if b == [] {
      assert a + b == a;
    } else {
      var b' := b[..|b| - 1];
      EncodeAllAppend(a, b');
      assert (a + b)[..|a + b| - 1] == a + b';
      assert (EncodeAll(a) + EncodeAll(b')) + Encode(b[|b| - 1]) == EncodeAll(a) + (EncodeAll(b') + Encode(b[|b| - 1]));
    }
  }

  /** A block that was read and lies wholly in the file re-encodes to the very bytes it was read from. */
  lemma BlockPrintsBack(file: seq<Byte>, pos: nat)
    requires BlockAt(file, pos).Block?
    requires Whole(file, BlockAt(file, pos).entry)
    ensures
      var b := BlockAt(file, pos);
      After(b.entry, b.next) <= |file| && file[pos..After(b.entry, b.next)] == Encode(MessageOf(file, b.entry))
  {
    hide Encode, MessageOf;
    if BlockAt(file, pos).entry.ChunkAt? { ChunkPrintsBack(file, pos); } else { MarkPrintsBack(file, pos); }
  }

  lemma ChunkPrintsBack(file: seq<Byte>, pos: nat)
    requires BlockAt(file, pos).Block? && BlockAt(file, pos).entry.ChunkAt? && Whole(file, BlockAt(file, pos).entry)
    ensures
      var b := BlockAt(file, pos);
      After(b.entry, b.next) <= |file| && file[pos..After(b.entry, b.next)] == Encode(MessageOf(file, b.entry))
  {
    hide PutU32, GetU32, BlockAt, MessageOf, After, Whole;
    var b := BlockAt(file, pos);
    var stop := After(b.entry, b.next);
    ChunkFields(file, pos);
    PutGetU32(file[pos + 1..pos + 5]);
    PutGetU32(file[pos + 5..pos + 9]);
    PutGetU32(file[pos + 9..pos + 13]);
    PutGetU32(file[pos + 13..pos + 17]);
    LongBlockBytes(file, pos, stop);
  }

  lemma ChunkFields(file: seq<Byte>, pos: nat)
    requires BlockAt(file, pos).Block? && BlockAt(file, pos).entry.ChunkAt? && Whole(file, BlockAt(file, pos).entry)
    ensures
      var b := BlockAt(file, pos);
      var stop := After(b.entry, b.next);
      && pos + 17 <= stop <= |file| && file[pos] == BLOCK_STREAM_CHUNK
      && stop - (pos + 17) == GetU32(file[pos + 13..pos + 17])
      && MessageOf(file, b.entry) == Data(GetU32(file[pos + 1..pos + 5]), GetU32(file[pos + 5..pos + 9]),
                                          GetU32(file[pos + 9..pos + 13]), file[pos + 17..stop])
  {
    hide GetU32;
  }

  lemma MarkPrintsBack(file: seq<Byte>, pos: nat)
    requires BlockAt(file, pos).Block? && !BlockAt(file, pos).entry.ChunkAt?
    ensures
      var b := BlockAt(file, pos);
      After(b.entry, b.next) <= |file| && file[pos..After(b.entry, b.next)] == Encode(MessageOf(file, b.entry))
  {
    hide PutU32, GetU32;
    PutGetU32(file[pos + 1..pos + 5]);
    PutGetU32(file[pos + 5..pos + 9]);
    ShortBlockBytes(file, pos);
  }

  lemma ShortBlockBytes(file: seq<Byte>, pos: nat)
    requires pos + 9 <= |file|
    ensures file[pos..pos + 9] == [file[pos]] + file[pos + 1..pos + 5] + file[pos + 5..pos + 9]
  {
  }

  lemma LongBlockBytes(file: seq<Byte>, pos: nat, stop: nat)
    requires pos + 17 <= stop <= |file|
    ensures file[pos..stop] == [file[pos]] + file[pos + 1..pos + 5] + file[pos + 5..pos + 9]
                               + file[pos + 9..pos + 13] + file[pos + 13..pos + 17] + file[pos + 17..stop]
  {
    ShortBlockBytes(file, pos);
    assert file[pos..pos + 13] == file[pos..pos + 9] + file[pos + 9..pos + 13];
    assert file[pos..pos + 17] == file[pos..pos + 13] + file[pos + 13..pos + 17];
    assert file[pos..stop] == file[pos..pos + 17] + file[pos + 17..stop];
  }

  /** Every accepted file without a truncated chunk is the encoding of the messages it decodes to. */
  lemma {:induction false} ScanPrintsBack(file: seq<Byte>, pos: nat)
    requires pos <= |file|
    requires Scan(file, pos).Some? && AllWhole(file, Scan(file, pos).value)
    ensures file[pos..] == EncodeAll(Decode(file, Scan(file, pos).value))
    decreases Left(file, pos)
  {
    hide Encode, BlockAt, MessageOf, Decode, Whole, EncodeAll;
    match BlockAt(file, pos)
    case Eof => NothingEncoded(file);
    case Block(e, next) =>
      var stop := After(e, next);
      var es, rest := Scan(file, pos).value, Scan(file, stop).value;
      assert es == [e] + rest;
      TailIsWhole(file, e, rest);
      BlockPrintsBack(file, pos);
      ScanPrintsBack(file, stop);
      EncodedTail(file, e, rest);
      assert file[pos..] == file[pos..stop] + file[stop..];
  }

  lemma NothingEncoded(file: seq<Byte>)
    ensures EncodeAll(Decode(file, [])) == []
  {
  }

  lemma TailIsWhole(file: seq<Byte>, e: Entry, rest: seq<Entry>)
    requires AllWhole(file, [e] + rest)
    ensures Whole(file, e) && AllWhole(file, rest)
  {
    hide Whole;
    var es := [e] + rest;
    assert es[0] == e;
    forall k | 0 <= k < |rest| ensures Whole(file, rest[k]) { assert rest[k] == es[k + 1]; }
  }

  lemma EncodedTail(file: seq<Byte>, e: Entry, rest: seq<Entry>)
    ensures EncodeAll(Decode(file, [e] + rest)) == Encode(MessageOf(file, e)) + EncodeAll(Decode(file, rest))
  {
    hide Encode, MessageOf;
    var m := MessageOf(file, e);
    assert Decode(file, [e] + rest) == [m] + Decode(file, rest);
    EncodeAllAppend([m], Decode(file, rest));
    assert EncodeAll([m]) == Encode(m) by { assert [m][..0] == []; }
  }
}
