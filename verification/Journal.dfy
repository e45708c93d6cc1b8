/** The write-ahead journal, byte by byte: record framing, replay, torn tails and corruption. */
module Journal {
  import opened MatchingTypes

  type byte = x: int | 0 <= x < 256
  type Bytes = seq<byte>

  const HEADER_LEN: nat := 10
  const MAX_RECORD_LEN: nat := 8 * 1024 * 1024

  const FORMAT_VERSION: nat := 1

  /** "ATLASMCH". */
  const MAGIC: Bytes := [65, 84, 76, 65, 83, 77, 67, 72]

  /** The magic and format version 1, little-endian. */
  const HEADER: Bytes := MAGIC + [1, 0]

  /** Serialisation and checksum, as the journal uses them: nothing about their insides. */
  datatype Codec = Codec(
    encode: SequencedCommand -> Bytes, decode: Bytes -> Option<SequencedCommand>, crc: Bytes -> nat)

  ghost predicate Lawful(codec: Codec) {
    && (forall c :: codec.decode(codec.encode(c)) == Some(c) && codec.encode(c) != [])
    && (forall b :: codec.crc(b) < 0x1_0000_0000)
  }

  function Le32(n: nat): (r: Bytes)
    ensures |r| == 4
  {
    [n % 256, n / 256 % 256, n / 65536 % 256, n / 16777216 % 256]
  }

  function FromLe32(b: Bytes): nat
    requires |b| == 4
  {
    b[0] as int + 256 * (b[1] as int) + 65536 * (b[2] as int) + 16777216 * (b[3] as int)
  }

  lemma Le32RoundTrip(n: nat)
    requires n < 0x1_0000_0000
    ensures FromLe32(Le32(n)) == n
    ensures var b := Le32(n);
      n == b[0] as int + 0x100 * (b[1] as int) + 0x1_0000 * (b[2] as int) + 0x100_0000 * (b[3] as int)
  {
    var a, b, c := n / 256, n / 65536, n / 16777216;
    assert n == 256 * a + n % 256;
    assert b == a / 256 && a == 256 * b + a % 256;
    assert c == b / 256 && b == 256 * c + b % 256;
    assert c < 256;
  }

  /** Length, checksum, payload. */
  function Record(codec: Codec, c: SequencedCommand): Bytes {
    var payload := codec.encode(c);
    Le32(|payload|) + Le32(codec.crc(payload)) + payload
  }

  /** What `append` refuses to write. */
  predicate Writable(codec: Codec, c: SequencedCommand) { |codec.encode(c)| <= MAX_RECORD_LEN }

  function Records(codec: Codec, cmds: seq<SequencedCommand>): Bytes {
    if cmds == [] then [] else Record(codec, cmds[0]) + Records(codec, cmds[1..])
  }

  datatype RecordRead = Good(command: SequencedCommand, next: nat) | Bad

  function ReadRecord(codec: Codec, file: Bytes, offset: nat): (r: RecordRead)
    ensures r.Good? ==> offset + 8 < r.next <= |file|
  {
    if offset + 8 > |file| then Bad
    else
      var len := FromLe32(file[offset..offset + 4]);
      var crc := FromLe32(file[offset + 4..offset + 8]);
      if len == 0 || len > MAX_RECORD_LEN then Bad
      else if offset + 8 + len > |file| then Bad
      else
        var payload := file[offset + 8..offset + 8 + len];
        if codec.crc(payload) != crc then Bad
        else match codec.decode(payload)
          case None => Bad
          case Some(c) => Good(c, offset + 8 + len)
  }

  /** The records readable from an offset, where reading stopped, and whether it stopped at damage. */
  datatype Scanned = Scanned(commands: seq<SequencedCommand>, end: nat, damaged: bool)

  function Scan(codec: Codec, file: Bytes, offset: nat): Scanned
    decreases |file| - offset
  {
    if offset >= |file| then Scanned([], offset, false)
    else match ReadRecord(codec, file, offset)
      case Bad => Scanned([], offset, true)
      case Good(c, next) =>
        var rest := Scan(codec, file, next);
        rest.(commands := [c] + rest.commands)
  }

  datatype Error =
    | BadHeader
    | UnsupportedVersion(found: nat)
    | SequenceRegression(previous: nat, next: nat)
    | Corruption(seqNo: nat, offset: nat)

  function HeaderError(file: Bytes): (r: Option<Error>)
    ensures r.None? <==> Sits(file, 0, HEADER)
  {
    if |file| < 8 || file[..8] != MAGIC then Some(BadHeader)
    else if |file| < HEADER_LEN then Some(BadHeader)
    else
      assert file[0..HEADER_LEN] == file[..8] + [file[8], file[9]];
      var found := file[8] as int + 256 * (file[9] as int);
      if found != FORMAT_VERSION then Some(UnsupportedVersion(found)) else None
  }

  /** `what` sits in `file` at `offset`. */
  predicate Sits(file: Bytes, offset: nat, what: Bytes) {
    offset + |what| <= |file| && file[offset..offset + |what|] == what
  }

  datatype Replayed = Replayed(commands: seq<SequencedCommand>, truncatedAt: Option<nat>, lastSeq: nat)

  datatype Outcome = Ok(value: Replayed) | Err(error: Error)

  /** Commands after `afterSeq`, in order; refused if sequences run backwards once any is taken. */
  datatype Taken = Taken(commands: seq<SequencedCommand>, lastSeq: nat) | Regressed(previous: nat, next: nat)

  function Take(taken: seq<SequencedCommand>, lastSeq: nat, afterSeq: nat, cmds: seq<SequencedCommand>): Taken
    decreases |cmds|
  {
    if cmds == [] then Taken(taken, lastSeq)
    else if cmds[0].seqNo <= lastSeq && taken != [] then Regressed(lastSeq, cmds[0].seqNo)
    else if cmds[0].seqNo > afterSeq then Take(taken + [cmds[0]], cmds[0].seqNo, afterSeq, cmds[1..])
    else Take(taken, if lastSeq >= cmds[0].seqNo then lastSeq else cmds[0].seqNo, afterSeq, cmds[1..])
  }

  /** An intact record begins somewhere after `bad`. */
  ghost predicate IntactAfter(codec: Codec, file: Bytes, bad: nat) {
    exists p: nat :: p > bad && ReadRecord(codec, file, p).Good?
  }

  /** What replaying a file must answer. */
  ghost predicate Answers(codec: Codec, file: Bytes, afterSeq: nat, r: Outcome) {
    if HeaderError(file).Some? then r == Err(HeaderError(file).value)
    else
      var scan := Scan(codec, file, HEADER_LEN);
      match Take([], afterSeq, afterSeq, scan.commands)
      case Regressed(previous, next) => r == Err(SequenceRegression(previous, next))
      case Taken(commands, lastSeq) =>
        if scan.damaged && IntactAfter(codec, file, scan.end) then r == Err(Corruption(lastSeq, scan.end))
        else r == Ok(Replayed(commands, if scan.damaged then Some(scan.end) else None, lastSeq))
  }

  /** Look for an intact record past the damage, one byte at a time: a corrupt length field means the
      next record boundary is not known. */
  method HasValidRecordAfter(codec: Codec, file: Bytes, bad: nat) returns (found: bool)
    ensures found <==> IntactAfter(codec, file, bad)
  {
    var probe := bad + 1;
    while probe + 8 < |file|
      invariant probe > bad
      invariant forall p: nat :: bad < p < probe ==> !ReadRecord(codec, file, p).Good?
    {
      if ReadRecord(codec, file, probe).Good? { return true; }
      probe := probe + 1;
    }
    return false;
  }

  /** Read every record after `afterSeq`. */
  method Replay(codec: Codec, file: Bytes, afterSeq: nat) returns (r: Outcome)
    ensures Answers(codec, file, afterSeq, r)
  {
    if HeaderError(file).Some? { return Err(HeaderError(file).value); }
    var commands: seq<SequencedCommand> := [];
    var offset, lastSeq, damaged := HEADER_LEN, afterSeq, false;
    ghost var scan := Scan(codec, file, HEADER_LEN);
    ghost var want := Take([], afterSeq, afterSeq, scan.commands);
    while offset < |file| && !damaged
      invariant !damaged ==>
        var rest := Scan(codec, file, offset);
        scan.end == rest.end && scan.damaged == rest.damaged && Take(commands, lastSeq, afterSeq, rest.commands) == want
      invariant damaged ==> scan.damaged && scan.end == offset && want == Taken(commands, lastSeq)
      decreases !damaged, |file| - offset
    {
      match ReadRecord(codec, file, offset) {
        case Bad => damaged := true;
        case Good(c, next) =>
          ghost var rest := Scan(codec, file, offset);
          assert rest.commands[1..] == Scan(codec, file, next).commands;
          if c.seqNo <= lastSeq && commands != [] { return Err(SequenceRegression(lastSeq, c.seqNo)); }
          if c.seqNo > afterSeq {
            lastSeq := c.seqNo;
            commands := commands + [c];
          } else if c.seqNo > lastSeq {
            lastSeq := c.seqNo;
          }
          offset := next;
      }
    }
    if damaged {
      var intact := HasValidRecordAfter(codec, file, offset);
      if intact { return Err(Corruption(lastSeq, offset)); }
      return Ok(Replayed(commands, Some(offset), lastSeq));
    }
    return Ok(Replayed(commands, None, lastSeq));
  }

  /** The journal as a file: absent, or only ever appended to and cut at a torn tail. */
  class JournalFile {
    var bytes: Option<Bytes>

    constructor ()
      ensures bytes == None
    {
      bytes := None;
    }

    /** Open for appending: a missing or empty file gets a header, any other must have one. */
    method Open() returns (r: Option<Error>)
      modifies this
      ensures old(bytes).None? || old(bytes).value == [] ==> bytes == Some(HEADER) && r.None?
      ensures old(bytes).Some? && old(bytes).value != [] ==> bytes == old(bytes) && r == HeaderError(bytes.value)
    {
      if bytes.None? || bytes.value == [] {
        bytes := Some(HEADER);
        return None;
      }
      r := HeaderError(bytes.value);
    }

    /** Append one record, or refuse one that is too large to read back. The write or the sync may also
        fail after any number of the record's bytes reached the file, and those bytes stay. */
    method Append(codec: Codec, c: SequencedCommand, fault: Option<nat>) returns (ok: bool)
      requires bytes.Some?
      modifies this
      ensures ok <==> Writable(codec, c) && fault.None?
      ensures bytes == Some(old(bytes).value + Written(codec, c, fault))
    {
      var payload := codec.encode(c);
      if |payload| > MAX_RECORD_LEN {
        assert bytes.value + [] == bytes.value;
        return false;
      }
      var record := Le32(|payload|) + Le32(codec.crc(payload)) + payload;
      var landed := if fault.Some? && fault.value < |record| then record[..fault.value] else record;
      bytes := Some(bytes.value + landed);
      return fault.None?;
    }

    /** Replay, and repair a torn tail on disk when asked to. */
    method ReplayFile(codec: Codec, afterSeq: nat, truncate: bool) returns (r: Outcome)
      modifies this
      ensures old(bytes).None? ==> r == Ok(Replayed([], None, afterSeq)) && bytes == None
      ensures old(bytes).Some? ==> Answers(codec, old(bytes).value, afterSeq, r)
      ensures r.Ok? && r.value.truncatedAt.Some? ==> old(bytes).Some? && r.value.truncatedAt.value < |old(bytes).value|
      ensures bytes == if r.Ok? && r.value.truncatedAt.Some? && truncate
                       then Some(old(bytes).value[..r.value.truncatedAt.value]) else old(bytes)
    {
      if bytes.None? { return Ok(Replayed([], None, afterSeq)); }
      r := Replay(codec, bytes.value, afterSeq);
      ScanStaysInside(codec, bytes.value, HEADER_LEN);
      if r.Ok? && r.value.truncatedAt.Some? && truncate { bytes := Some(bytes.value[..r.value.truncatedAt.value]); }
    }
  }

  /** The bytes an append leaves behind: all of the record, none of it, or as much as a fault let through. */
  function Written(codec: Codec, c: SequencedCommand, fault: Option<nat>): Bytes {
    if !Writable(codec, c) then []
    else if fault.Some? && fault.value < |Record(codec, c)| then Record(codec, c)[..fault.value]
    else Record(codec, c)
  }

  lemma {:induction false} ScanStaysInside(codec: Codec, file: Bytes, offset: nat)
    ensures Scan(codec, file, offset).damaged ==> offset <= Scan(codec, file, offset).end < |file|
    decreases |file| - offset
  {
    if offset < |file| && ReadRecord(codec, file, offset).Good? {
      ScanStaysInside(codec, file, ReadRecord(codec, file, offset).next);
    }
  }

  // ------------------------------------------------------------------ reading back what was written

  lemma SitsParts(file: Bytes, offset: nat, a: Bytes, b: Bytes)
    requires Sits(file, offset, a + b)
    ensures Sits(file, offset, a) && Sits(file, offset + |a|, b)
  {
    var m := file[offset..offset + |a + b|];
    assert m[..|a|] == a && m[|a|..] == b;
  }

  /** A record reads back wherever it sits, whatever surrounds it. */
  lemma {:induction false} ReadBack(codec: Codec, file: Bytes, offset: nat, c: SequencedCommand)
    requires Lawful(codec) && Writable(codec, c) && Sits(file, offset, Record(codec, c))
    ensures ReadRecord(codec, file, offset) == Good(c, offset + |Record(codec, c)|)
  {
    var payload := codec.encode(c);
    SitsParts(file, offset, Le32(|payload|) + Le32(codec.crc(payload)), payload);
    SitsParts(file, offset, Le32(|payload|), Le32(codec.crc(payload)));
    Le32RoundTrip(|payload|);
    Le32RoundTrip(codec.crc(payload));
    hide Le32, FromLe32;
  }

  /** A record cut short at the end of the file is damage, never a different record. */
  lemma {:induction false} CutRecordIsBad(codec: Codec, file: Bytes, offset: nat, c: SequencedCommand)
    requires Lawful(codec) && Writable(codec, c) && offset <= |file|
    requires |file| - offset < |Record(codec, c)| && file[offset..] == Record(codec, c)[..|file| - offset]
    ensures ReadRecord(codec, file, offset) == Bad
  {
    var payload := codec.encode(c);
    if offset + 8 <= |file| {
      assert file[offset..offset + 4] == file[offset..][..4] == Record(codec, c)[..4] == Le32(|payload|);
      Le32RoundTrip(|payload|);
      hide Le32, FromLe32;
    }
  }

  ghost predicate AllWritable(codec: Codec, cmds: seq<SequencedCommand>) {
    forall c :: c in cmds ==> Writable(codec, c)
  }

  lemma {:induction false} RecordsAppend(codec: Codec, a: seq<SequencedCommand>, b: seq<SequencedCommand>)
    ensures Records(codec, a + b) == Records(codec, a) + Records(codec, b)
  {
    hide Record;
    if a == [] {
      assert a + b == b;
    } else {
      assert (a + b)[1..] == a[1..] + b;
      RecordsAppend(codec, a[1..], b);
    }
  }

  /** Scanning past intact records arrives at what follows them. */
  lemma {:induction false} ScanPast(codec: Codec, file: Bytes, offset: nat, cmds: seq<SequencedCommand>)
    requires Lawful(codec) && AllWritable(codec, cmds) && Sits(file, offset, Records(codec, cmds))
    ensures var rest := Scan(codec, file, offset + |Records(codec, cmds)|);
      Scan(codec, file, offset) == rest.(commands := cmds + rest.commands)
    decreases |cmds|
  {
    hide Record, ReadRecord, Lawful, Writable;
    if cmds != [] {
      assert cmds[0] in cmds && forall c :: c in cmds[1..] ==> c in cmds;
      var first := Record(codec, cmds[0]);
      SitsParts(file, offset, first, Records(codec, cmds[1..]));
      ReadBack(codec, file, offset, cmds[0]);
      assert Scan(codec, file, offset).commands == [cmds[0]] + Scan(codec, file, offset + |first|).commands;
      ScanPast(codec, file, offset + |first|, cmds[1..]);
      HeadFirst(cmds, Scan(codec, file, offset + |Records(codec, cmds)|).commands);
    } else {
      var rest := Scan(codec, file, offset);
      assert [] + rest.commands == rest.commands;
    }
  }

  lemma HeadFirst(a: seq<SequencedCommand>, b: seq<SequencedCommand>)
    requires a != []
    ensures [a[0]] + (a[1..] + b) == a + b
  {
  }

  // ------------------------------------------------------------------ a journal cut anywhere

  /** A journal file holding exactly these commands. */
  function File(codec: Codec, cmds: seq<SequencedCommand>): Bytes { HEADER + Records(codec, cmds) }

  /** How many whole records fit in the first `n` bytes after the header. */
  function Complete(codec: Codec, cmds: seq<SequencedCommand>, n: nat): (k: nat)
    ensures k <= |cmds|
  {
    if cmds == [] || n < |Record(codec, cmds[0])| then 0
    else 1 + Complete(codec, cmds[1..], n - |Record(codec, cmds[0])|)
  }

  lemma {:induction false} CompleteFits(codec: Codec, cmds: seq<SequencedCommand>, n: nat)
    requires n <= |Records(codec, cmds)|
    ensures var k := Complete(codec, cmds, n);
      && |Records(codec, cmds[..k])| <= n
      && (k < |cmds| ==> n < |Records(codec, cmds[..k])| + |Record(codec, cmds[k])|)
      && (k == |cmds| ==> n == |Records(codec, cmds)|)
    decreases |cmds|
  {
    hide Record;
    if cmds != [] && n >= |Record(codec, cmds[0])| {
      CompleteFits(codec, cmds[1..], n - |Record(codec, cmds[0])|);
      var k := Complete(codec, cmds, n);
      assert cmds[..k][0] == cmds[0] && cmds[..k][1..] == cmds[1..][..k - 1];
    }
  }

  /** Cutting a journal at ANY byte after its header leaves exactly the complete records readable, and
      damage after them exactly when the cut fell inside a record. */
  lemma {:induction false} ScanOfCut(codec: Codec, cmds: seq<SequencedCommand>, n: nat)
    requires Lawful(codec) && AllWritable(codec, cmds) && HEADER_LEN <= n <= |File(codec, cmds)|
    ensures var k := Complete(codec, cmds, n - HEADER_LEN);
      var end := HEADER_LEN + |Records(codec, cmds[..k])|;
      Scan(codec, File(codec, cmds)[..n], HEADER_LEN) == Scanned(cmds[..k], end, end < n)
  {
    hide Record, ReadRecord, Lawful, Writable, Complete;
    var k := Complete(codec, cmds, n - HEADER_LEN);
    var kept, rest := Records(codec, cmds[..k]), Records(codec, cmds[k..]);
    var cut := File(codec, cmds)[..n];
    CompleteFits(codec, cmds, n - HEADER_LEN);
    assert cmds == cmds[..k] + cmds[k..];
    RecordsAppend(codec, cmds[..k], cmds[k..]);
    CutLayout(HEADER, kept, rest, n);
    ScanPast(codec, cut, HEADER_LEN, cmds[..k]);
    assert cmds[..k] + [] == cmds[..k];
    var end := HEADER_LEN + |kept|;
    if end < n {
      assert cmds[k] in cmds && rest == Record(codec, cmds[k]) + Records(codec, cmds[k..][1..]);
      hide Records;
      PrefixOfFirst(Record(codec, cmds[k]), Records(codec, cmds[k..][1..]), n - end);
      assert cut[end..] == rest[..n - end];
      CutRecordIsBad(codec, cut, end, cmds[k]);
    }
  }

  lemma PrefixOfFirst(a: Bytes, b: Bytes, i: nat)
    requires i <= |a|
    ensures (a + b)[..i] == a[..i]
  {
  }

  lemma HeaderSits(records: Bytes, n: nat)
    requires HEADER_LEN <= n <= HEADER_LEN + |records|
    ensures Sits((HEADER + records)[..n], 0, HEADER)
  {
  }

  lemma CutLayout(header: Bytes, kept: Bytes, rest: Bytes, n: nat)
    requires |header| + |kept| <= n <= |header| + |kept| + |rest|
    ensures var cut := (header + (kept + rest))[..n];
      Sits(cut, |header|, kept) && cut[|header| + |kept|..] == rest[..n - |header| - |kept|]
  {
  }

  /** How many commands at the front a replay after `afterSeq` passes over. */
  function Skipped(cmds: seq<SequencedCommand>, afterSeq: nat): (k: nat)
    ensures k <= |cmds|
  {
    if cmds == [] || cmds[0].seqNo > afterSeq then 0 else 1 + Skipped(cmds[1..], afterSeq)
  }

  lemma IncreasingTail(cmds: seq<SequencedCommand>)
    requires Increasing(cmds) && cmds != []
    ensures Increasing(cmds[1..]) && forall c :: c in cmds[1..] ==> c.seqNo > cmds[0].seqNo
  {
    forall c | c in cmds[1..] ensures c.seqNo > cmds[0].seqNo {
      var i :| 0 <= i < |cmds[1..]| && cmds[1..][i] == c;
      assert cmds[i + 1] == c;
    }
  }

  /** The sequence a replay ends on. */
  function EndSeq(cmds: seq<SequencedCommand>, afterSeq: nat): nat {
    if cmds == [] || cmds[|cmds| - 1].seqNo <= afterSeq then afterSeq else cmds[|cmds| - 1].seqNo
  }

  lemma {:induction false} TakeAll(taken: seq<SequencedCommand>, lastSeq: nat, afterSeq: nat,
                                   cmds: seq<SequencedCommand>)
    requires Increasing(cmds) && afterSeq <= lastSeq && forall c :: c in cmds ==> c.seqNo > lastSeq
    ensures Take(taken, lastSeq, afterSeq, cmds) == Taken(taken + cmds, EndSeq(cmds, lastSeq))
    decreases |cmds|
  {
    if cmds == [] {
      assert taken + cmds == taken;
    } else {
      assert cmds[0] in cmds;
      IncreasingTail(cmds);
      TakeAll(taken + [cmds[0]], cmds[0].seqNo, afterSeq, cmds[1..]);
      assert taken + [cmds[0]] + cmds[1..] == taken + cmds;
    }
  }

  lemma AllAfter(cmds: seq<SequencedCommand>, afterSeq: nat)
    requires Increasing(cmds) && cmds != [] && cmds[0].seqNo > afterSeq
    ensures forall c :: c in cmds ==> c.seqNo > afterSeq
  {
  }

  /** Of increasing commands, a replay takes exactly those after `afterSeq`, wherever that falls. */
  lemma {:induction false} TakeAfter(afterSeq: nat, cmds: seq<SequencedCommand>)
    requires Increasing(cmds)
    ensures Take([], afterSeq, afterSeq, cmds) == Taken(cmds[Skipped(cmds, afterSeq)..], EndSeq(cmds, afterSeq))
    decreases |cmds|
  {
    if cmds == [] {
    } else if cmds[0].seqNo <= afterSeq {
      IncreasingTail(cmds);
      hide Increasing;
      TakeAfter(afterSeq, cmds[1..]);
      assert cmds[1..][Skipped(cmds[1..], afterSeq)..] == cmds[Skipped(cmds, afterSeq)..];
    } else {
      hide Take, Increasing;
      AllAfter(cmds, afterSeq);
      TakeAll([], afterSeq, afterSeq, cmds);
      assert [] + cmds == cmds && cmds[0..] == cmds;
    }
  }

  /** Replaying a journal cut at any byte, from any sequence, returns exactly the commands of the complete
      records after it, or refuses; it never returns anything else, and refuses only when bytes after
      the damage happen to read as an intact record. */
  lemma {:induction false} CutReplaysToPrefix(codec: Codec, cmds: seq<SequencedCommand>, n: nat, afterSeq: nat,
                                              r: Outcome)
    requires Lawful(codec) && AllWritable(codec, cmds) && HEADER_LEN <= n <= |File(codec, cmds)|
    requires Increasing(cmds) && Answers(codec, File(codec, cmds)[..n], afterSeq, r)
    ensures var k := Complete(codec, cmds, n - HEADER_LEN);
      var end := HEADER_LEN + |Records(codec, cmds[..k])|;
      if end < n && IntactAfter(codec, File(codec, cmds)[..n], end)
      then r == Err(Corruption(EndSeq(cmds[..k], afterSeq), end))
      else r == Ok(Replayed(cmds[..k][Skipped(cmds[..k], afterSeq)..], if end < n then Some(end) else None,
                            EndSeq(cmds[..k], afterSeq)))
  {
    hide Record, ReadRecord, Lawful, Writable, Scan, IntactAfter, Records, Complete, HeaderError, Take, Skipped;
    var k := Complete(codec, cmds, n - HEADER_LEN);
    ScanOfCut(codec, cmds, n);
    HeaderSits(Records(codec, cmds), n);
    TakeAfter(afterSeq, cmds[..k]);
  }

  /** A cut that recovery repairs leaves exactly the journal of the complete records. */
  lemma {:induction false} RepairedCut(codec: Codec, cmds: seq<SequencedCommand>, n: nat)
    requires HEADER_LEN <= n <= |File(codec, cmds)|
    ensures var k := Complete(codec, cmds, n - HEADER_LEN);
      var end := HEADER_LEN + |Records(codec, cmds[..k])|;
      end <= n && File(codec, cmds)[..n][..end] == File(codec, cmds[..k])
  {
    hide Record, Complete;
    var k := Complete(codec, cmds, n - HEADER_LEN);
    CompleteFits(codec, cmds, n - HEADER_LEN);
    assert cmds == cmds[..k] + cmds[k..];
    RecordsAppend(codec, cmds[..k], cmds[k..]);
    hide Records;
    assert HEADER + (Records(codec, cmds[..k]) + Records(codec, cmds[k..]))
        == File(codec, cmds[..k]) + Records(codec, cmds[k..]);
  }

  // ------------------------------------------------------------------ an append that failed

  lemma {:induction false} TakeAppend(taken: seq<SequencedCommand>, lastSeq: nat, afterSeq: nat,
                                      a: seq<SequencedCommand>, b: seq<SequencedCommand>)
    ensures var t := Take(taken, lastSeq, afterSeq, a);
      Take(taken, lastSeq, afterSeq, a + b) == if t.Taken? then Take(t.commands, t.lastSeq, afterSeq, b) else t
    decreases |a|
  {
    if a == [] {
      assert a + b == b;
    } else {
      assert (a + b)[0] == a[0] && (a + b)[1..] == a[1..] + b;
      if a[0].seqNo <= lastSeq && taken != [] {
      } else if a[0].seqNo > afterSeq {
        TakeAppend(taken + [a[0]], a[0].seqNo, afterSeq, a[1..], b);
      } else {
        TakeAppend(taken, if lastSeq >= a[0].seqNo then lastSeq else a[0].seqNo, afterSeq, a[1..], b);
      }
    }
  }

  /** A file of whole records replays as its commands do. */
  lemma WholeFileAnswers(codec: Codec, cmds: seq<SequencedCommand>, afterSeq: nat, r: Outcome)
    requires Lawful(codec) && AllWritable(codec, cmds) && Answers(codec, File(codec, cmds), afterSeq, r)
    ensures match Take([], afterSeq, afterSeq, cmds)
            case Regressed(previous, next) => r == Err(SequenceRegression(previous, next))
            case Taken(commands, lastSeq) => r == Ok(Replayed(commands, None, lastSeq))
  {
    hide Record, ReadRecord, Lawful, Writable, Take, HeaderError;
    var file := File(codec, cmds);
    HeaderSits(Records(codec, cmds), |file|);
    assert file[..|file|] == file && Sits(file, HEADER_LEN, Records(codec, cmds));
    ScanPast(codec, file, HEADER_LEN, cmds);
    assert cmds + [] == cmds;
  }

  /** The process survives an append that failed after `m` bytes, reuses the sequence and journals on. From
      then on a replay that needs that sequence is refused, if and only if any byte had landed: torn bytes
      stand before intact records, and a record that landed whole has its sequence repeated. The bytes
      the torn record and its successor splice into are taken not to form a record themselves. */
  lemma {:induction false} FailedAppendExactly(codec: Codec, cmds: seq<SequencedCommand>, c: SequencedCommand, m: nat,
                                               later: seq<SequencedCommand>, afterSeq: nat, r: Outcome)
    requires Lawful(codec) && AllWritable(codec, cmds + [c] + later) && m <= |Record(codec, c)|
    requires later != [] && later[0].seqNo == c.seqNo > afterSeq && Increasing(cmds + later)
    requires var file := File(codec, cmds) + Record(codec, c)[..m] + Records(codec, later);
      && (0 < m < |Record(codec, c)| ==> ReadRecord(codec, file, |File(codec, cmds)|) == Bad)
      && Answers(codec, file, afterSeq, r)
    ensures r.Ok? <==> m == 0
    ensures m == 0 ==> r.value.commands == (cmds + later)[Skipped(cmds + later, afterSeq)..]
  {
    hide Lawful, Writable, Take, Skipped, Answers, ReadRecord, Record;
    assert forall x :: x in cmds || x in later ==> x in cmds + [c] + later;
    if m == 0 {
      RecordsAppend(codec, cmds, later);
      assert File(codec, cmds) + [] + Records(codec, later) == File(codec, cmds + later);
      WholeFileAnswers(codec, cmds + later, afterSeq, r);
      TakeAfter(afterSeq, cmds + later);
    } else if m == |Record(codec, c)| {
      RepeatedSequence(codec, cmds, c, later, afterSeq, r);
    } else {
      TornThenIntact(codec, cmds, c, m, later, afterSeq, r);
    }
  }

  lemma TornThenIntact(codec: Codec, cmds: seq<SequencedCommand>, c: SequencedCommand, m: nat,
                       later: seq<SequencedCommand>, afterSeq: nat, r: Outcome)
    requires Lawful(codec) && AllWritable(codec, cmds + [c] + later) && 0 < m < |Record(codec, c)| && later != []
    requires var file := File(codec, cmds) + Record(codec, c)[..m] + Records(codec, later);
      ReadRecord(codec, file, |File(codec, cmds)|) == Bad && Answers(codec, file, afterSeq, r)
    ensures r.Err?
  {
    hide Lawful, Writable, Answers, ReadRecord, Record;
    var torn, rest := Record(codec, c)[..m], Records(codec, later[1..]);
    var file := File(codec, cmds) + torn + Records(codec, later);
    assert forall x :: x in cmds || x in later ==> x in cmds + [c] + later;
    assert later[0] in later;
    Placed(HEADER, Records(codec, cmds), torn, Record(codec, later[0]), rest);
    DamageInTheMiddleIsRefused(codec, file, cmds, |File(codec, cmds)| + m, later[0], afterSeq, r);
  }

  lemma Placed(header: Bytes, records: Bytes, torn: Bytes, record: Bytes, rest: Bytes)
    ensures var file := header + records + torn + (record + rest);
      && Sits(file, 0, header) && Sits(file, |header|, records)
      && Sits(file, |header| + |records| + |torn|, record)
  {
    var file := header + records + torn + (record + rest);
    assert file == header + records + torn + record + rest;
  }

  lemma RepeatedSequence(codec: Codec, cmds: seq<SequencedCommand>, c: SequencedCommand,
                         later: seq<SequencedCommand>, afterSeq: nat, r: Outcome)
    requires Lawful(codec) && AllWritable(codec, cmds + [c] + later) && later != []
    requires later[0].seqNo == c.seqNo > afterSeq && Increasing(cmds + later)
    requires Answers(codec, File(codec, cmds) + Record(codec, c)[..|Record(codec, c)|]
                     + Records(codec, later), afterSeq, r)
    ensures r.Err?
  {
    hide Lawful, Writable, Answers, ReadRecord, Record, Skipped;
    var all := cmds + [c] + later;
    RecordsAppend(codec, cmds + [c], later);
    RecordsAppend(codec, cmds, [c]);
    assert [c][1..] == [] && Records(codec, [c]) == Record(codec, c) + Records(codec, []);
    assert File(codec, cmds) + Record(codec, c)[..|Record(codec, c)|] + Records(codec, later) == File(codec, all);
    WholeFileAnswers(codec, all, afterSeq, r);
    assert Increasing(cmds + [c]) by {
      forall i, j | 0 <= i < j < |cmds + [c]| ensures (cmds + [c])[i].seqNo < (cmds + [c])[j].seqNo {
        assert (cmds + later)[i].seqNo < (cmds + later)[j].seqNo;
      }
    }
    TakeAfter(afterSeq, cmds + [c]);
    NotSkipped(cmds + [c], afterSeq);
    TakeAppend([], afterSeq, afterSeq, cmds + [c], later);
  }

  /** A command after `afterSeq` at the end is taken. */
  lemma {:induction false} NotSkipped(cmds: seq<SequencedCommand>, afterSeq: nat)
    requires cmds != [] && cmds[|cmds| - 1].seqNo > afterSeq
    ensures Skipped(cmds, afterSeq) < |cmds|
  {
    if |cmds| <= 1 {
    } else {
      assert cmds[1..][|cmds| - 2] == cmds[|cmds| - 1];
      NotSkipped(cmds[1..], afterSeq);
    }
  }

  // ------------------------------------------------------------------ damage in the middle

  /** A damaged record with an intact one anywhere after it is always refused, whatever the bytes in
      between are and however far apart the two lie. */
  lemma {:induction false} DamageInTheMiddleIsRefused(codec: Codec, file: Bytes, before: seq<SequencedCommand>, p: nat,
                                                      c: SequencedCommand, afterSeq: nat, r: Outcome)
    requires Lawful(codec) && AllWritable(codec, before) && Writable(codec, c)
    requires Sits(file, 0, HEADER) && Sits(file, HEADER_LEN, Records(codec, before))
    requires var bad := HEADER_LEN + |Records(codec, before)|;
      bad < |file| && ReadRecord(codec, file, bad) == Bad && p > bad
    requires Sits(file, p, Record(codec, c)) && Answers(codec, file, afterSeq, r)
    ensures r.Err?
    ensures match Take([], afterSeq, afterSeq, before)
            case Taken(_, lastSeq) => r == Err(Corruption(lastSeq, HEADER_LEN + |Records(codec, before)|))
            case Regressed(previous, next) => r == Err(SequenceRegression(previous, next))
  {
    hide Record, Lawful, Writable, Records;
    var bad := HEADER_LEN + |Records(codec, before)|;
    ReadBack(codec, file, p, c);
    assert IntactAfter(codec, file, bad);
    ScanPast(codec, file, HEADER_LEN, before);
    assert before + [] == before;
  }

  // ------------------------------------------------------------------ repairing a torn tail

  /** A record reads the same in any file with the same bytes there. */
  lemma SameRecord(codec: Codec, a: Bytes, b: Bytes, offset: nat)
    requires ReadRecord(codec, a, offset).Good?
    requires var next := ReadRecord(codec, a, offset).next; next <= |b| && a[offset..next] == b[offset..next]
    ensures ReadRecord(codec, b, offset) == ReadRecord(codec, a, offset)
  {
    var next := ReadRecord(codec, a, offset).next;
    SameSlice(a, b, offset, next, 0, 4);
    SameSlice(a, b, offset, next, 4, 8);
    SameSlice(a, b, offset, next, 8, next - offset);
  }

  lemma SameSlice(a: Bytes, b: Bytes, from: nat, to: nat, i: nat, j: nat)
    requires from <= to <= |a| && to <= |b| && i <= j <= to - from && a[from..to] == b[from..to]
    ensures a[from + i..from + j] == b[from + i..from + j]
  {
    SliceOfSlice(a, from, to, i, j);
    SliceOfSlice(b, from, to, i, j);
  }

  lemma SliceOfSlice(a: Bytes, from: nat, to: nat, i: nat, j: nat)
    requires from <= to <= |a| && i <= j <= to - from
    ensures a[from..to][i..j] == a[from + i..from + j]
  {
    var x, y := a[from..to][i..j], a[from + i..from + j];
    forall k | 0 <= k < |x| ensures x[k] == y[k] {
      assert x[k] == a[from..to][i + k];
    }
  }

  lemma {:induction false} ScanOfKept(codec: Codec, file: Bytes, offset: nat)
    requires offset <= |file|
    ensures var scan := Scan(codec, file, offset);
      offset <= scan.end <= |file| && Scan(codec, file[..scan.end], offset) == Scanned(scan.commands, scan.end, false)
    decreases |file| - offset
  {
    hide ReadRecord;
    if offset < |file| && ReadRecord(codec, file, offset).Good? {
      var next := ReadRecord(codec, file, offset).next;
      ScanOfKept(codec, file, next);
      var scan := Scan(codec, file, offset);
      var kept := file[..scan.end];
      SliceOfSlice(file, 0, scan.end, offset, next);
      assert file[0..scan.end] == kept;
      SameRecord(codec, file, kept, offset);
    }
  }

  lemma {:induction false} ScanThenAppend(codec: Codec, file: Bytes, offset: nat, c: SequencedCommand)
    requires Lawful(codec) && Writable(codec, c) && offset <= |file| && !Scan(codec, file, offset).damaged
    ensures Scan(codec, file + Record(codec, c), offset)
         == Scanned(Scan(codec, file, offset).commands + [c], |file| + |Record(codec, c)|, false)
    decreases |file| - offset
  {
    hide Record, Lawful, ReadRecord;
    var longer := file + Record(codec, c);
    if offset == |file| {
      assert Sits(longer, offset, Record(codec, c));
      ReadBack(codec, longer, offset, c);
      assert [c] + [] == [] + [c];
    } else {
      var next := ReadRecord(codec, file, offset).next;
      ScanThenAppend(codec, file, next, c);
      assert longer[offset..next] == file[offset..next];
      SameRecord(codec, file, longer, offset);
      var c0, rest := ReadRecord(codec, file, offset).command, Scan(codec, file, next).commands;
      assert [c0] + (rest + [c]) == [c0] + rest + [c];
    }
  }

  /** Truncating at the torn tail and appending carries on as if the torn record had never begun. */
  lemma {:induction false} TruncateThenAppend(codec: Codec, file: Bytes, c: SequencedCommand)
    requires Lawful(codec) && Writable(codec, c) && HEADER_LEN <= |file|
    ensures var scan := Scan(codec, file, HEADER_LEN);
      scan.end <= |file| &&
      Scan(codec, file[..scan.end] + Record(codec, c), HEADER_LEN)
        == Scanned(scan.commands + [c], scan.end + |Record(codec, c)|, false)
  {
    ScanOfKept(codec, file, HEADER_LEN);
    hide ReadRecord, Record, Lawful;
    ScanThenAppend(codec, file[..Scan(codec, file, HEADER_LEN).end], HEADER_LEN, c);
  }
}
