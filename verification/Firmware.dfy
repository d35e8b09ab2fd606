/** The sensor hub flasher: packets into flash, and the CRC that tells whether they arrived. */
module Firmware {
  import opened Crc32

  const STM_SUCCESS := 0
  const STM_FAILURE := -1
  const STM_DOWNLOADRETRIES := 3
  const FLASH_START_ADDRESS := 0x08000000

  function Fill(n: nat, fill: Byte): (s: seq<Byte>)
    ensures |s| == n
  {
    seq(n, _ => fill)
  }

  /** The file at the start of a region of `size` bytes, padded with the fill value; a longer file
      stands alone. */
  function Padded(file: seq<Byte>, size: nat, fill: Byte): seq<Byte> {
    file + Fill(if |file| < size then size - |file| else 0, fill)
  }

  /** Byte by byte: the file, and then the fill value up to the size. */
  lemma PaddedBytes(file: seq<Byte>, size: nat, fill: Byte)
    ensures |Padded(file, size, fill)| == if |file| < size then size else |file|
    ensures forall k :: 0 <= k < |file| ==> Padded(file, size, fill)[k] == file[k]
    ensures forall k :: |file| <= k < size ==> Padded(file, size, fill)[k] == fill
  {}

  // ----- computing the CRC

  lemma TableRunAppend(c: bv32, data: seq<Byte>, b: Byte)
    ensures TableRun(c, data + [b]) == TableStep(TableRun(c, data), b)
    decreases |data|
  {
    hide TableStep;
    if data == [] {
      assert (data + [b])[1..] == [];
      assert TableRun(TableStep(c, b), []) == TableStep(c, b);
    } else {
      assert (data + [b])[1..] == data[1..] + [b];
      TableRunAppend(TableStep(c, data[0]), data[1..], b);
    }
  }

  method CalculateCrc32(data: array<Byte>, dataLen: nat) returns (r: bv32)
    requires dataLen <= data.Length
    ensures r == Crc(data[..dataLen])
  {
    hide TableStep;
    hide Crc;
    hide TableRun;
    var crc := CRC_INIT;
    var i := 0;
    assert TableRun(CRC_INIT, data[..0]) == CRC_INIT by { TableRunNothing(CRC_INIT, data[..0]); }
    while i < dataLen
      invariant 0 <= i <= dataLen
      invariant crc == TableRun(CRC_INIT, data[..i])
    {
      crc := TableStep(crc, data[i]);
      TableRunAppend(CRC_INIT, data[..i], data[i]);
      assert data[..i] + [data[i]] == data[..i + 1];
      i := i + 1;
    }
    TableIsCrc(data[..dataLen]);
    r := Xor(crc, XOR_OUT);
  }

  lemma TableRunNothing(c: bv32, data: seq<Byte>)
    requires data == []
    ensures TableRun(c, data) == c
  {}

  datatype File = Unreadable | Readable(bytes: seq<Byte>)

  /** The CRC of the file as if padded to `dataLen`; a longer file is taken whole. */
  method CalculateFileCrc32(file: File, dataLen: nat, fill: Byte) returns (ret: int, outCrc: bv32)
    ensures ret == if file.Readable? then 0 else -1
    ensures file.Readable? ==> outCrc == Crc(Padded(file.bytes, dataLen, fill))
  {
    if file.Unreadable? {
      return -1, 0;
    }
    hide Crc;
    hide TableRun;
    hide Padded;
    hide Xor;
    var crc := FeedFile(file.bytes);
    crc := FeedFill(crc, file.bytes, dataLen, fill);
    TableIsCrc(Padded(file.bytes, dataLen, fill));
    return 0, Xor(crc, XOR_OUT);
  }

  /** The first loop of the file CRC: every byte of the file. */
  method FeedFile(bytes: seq<Byte>) returns (crc: bv32)
    ensures crc == TableRun(CRC_INIT, bytes)
  {
    hide TableStep;
    hide TableRun;
    var sz := 0;
    crc := CRC_INIT;
    TableRunNothing(CRC_INIT, bytes[..0]);
    while sz < |bytes|
      invariant 0 <= sz <= |bytes|
      invariant crc == TableRun(CRC_INIT, bytes[..sz])
    {
      crc := TableStep(crc, bytes[sz]);
      TableRunAppend(CRC_INIT, bytes[..sz], bytes[sz]);
      assert bytes[..sz] + [bytes[sz]] == bytes[..sz + 1];
      sz := sz + 1;
    }
    assert bytes[..|bytes|] == bytes;
  }

  /** The second loop of the file CRC: fill bytes up to `dataLen`. */
  method FeedFill(crc0: bv32, bytes: seq<Byte>, dataLen: nat, fill: Byte) returns (crc: bv32)
    requires crc0 == TableRun(CRC_INIT, bytes)
    ensures crc == TableRun(CRC_INIT, Padded(bytes, dataLen, fill))
  {
    hide TableStep;
    hide TableRun;
    crc := crc0;
    var sz := |bytes|;
    ghost var fed := bytes;
    while sz < dataLen
      invariant |bytes| <= sz && (sz <= dataLen || sz == |bytes|)
      invariant fed == bytes + Fill(sz - |bytes|, fill)
      invariant crc == TableRun(CRC_INIT, fed)
    {
      crc := TableStep(crc, fill);
      TableRunAppend(CRC_INIT, fed, fill);
      fed := fed + [fill];
      sz := sz + 1;
    }
    assert fed == Padded(bytes, dataLen, fill);
  }

  // ----- sending packets

  class FileStream {
    const bytes: seq<Byte>
    var pos: nat
    var eof: bool

    constructor (bytes: seq<Byte>)
      ensures this.bytes == bytes && pos == 0 && !eof
    {
      this.bytes := bytes;
      pos, eof := 0, false;
    }

    ghost predicate Valid()
      reads this
    {
      pos <= |bytes| && (eof ==> pos == |bytes|)
    }

    method Rewind()
      modifies this
      ensures Valid() && pos == 0 && !eof
    {
      pos, eof := 0, false;
    }

    method GetChar() returns (c: Byte)
      requires Valid()
      modifies this
      ensures Valid()
      ensures if old(pos) < |bytes| then c == bytes[old(pos)] && pos == old(pos) + 1 && eof == old(eof)
              else pos == old(pos) && eof
    {
      if pos < |bytes| {
        c := bytes[pos];
        pos := pos + 1;
      } else {
        c := 0xFF;
        eof := true;
      }
    }
  }

  function RoundUp8(n: nat): nat {
    if n % 8 == 0 then n else n - n % 8 + 8
  }

  /** The least multiple of 8 from `n` on. */
  lemma RoundUp8Meaning(n: nat)
    ensures RoundUp8(n) % 8 == 0 && n <= RoundUp8(n) < n + 8
    ensures forall k :: n <= k && k % 8 == 0 ==> RoundUp8(n) <= k
  {}

  /** How many file bytes the next packet takes. */
  function Take(size: nat, pos: nat, max: nat): nat
    requires pos <= size
  {
    if size - pos <= max then size - pos else max
  }

  /** Fills `databuff` with the next packet; its length is a multiple of 8, and 0 at the end of file. */
  method GetPacket(fp: FileStream, databuff: array<Byte>, fill: Byte) returns (len: nat)
    requires fp.Valid() && databuff.Length > 0 && databuff.Length % 8 == 0
    modifies fp, databuff
    ensures fp.Valid()
    ensures var n := Take(|fp.bytes|, old(fp.pos), databuff.Length);
      && fp.pos == old(fp.pos) + n
      && len == RoundUp8(n) <= databuff.Length
      && len % 8 == 0 && n <= len < n + 8
      && databuff[..len] == fp.bytes[old(fp.pos)..fp.pos] + Fill(len - n, fill)
  {
    len := ReadBytes(fp, databuff);
    RoundUp8Meaning(len);
    ghost var n, read := len, databuff[..len];
    while len < databuff.Length && len % 8 > 0
      modifies databuff
      invariant n <= len <= RoundUp8(n) <= databuff.Length
      invariant databuff[..len] == read + Fill(len - n, fill)
    {
      databuff[len] := fill;
      len := len + 1;
      assert databuff[..len] == databuff[..len - 1] + [fill];
    }
  }

  method ReadBytes(fp: FileStream, databuff: array<Byte>) returns (len: nat)
    requires fp.Valid() && databuff.Length > 0
    modifies fp, databuff
    ensures fp.Valid()
    ensures len == Take(|fp.bytes|, old(fp.pos), databuff.Length)
    ensures fp.pos == old(fp.pos) + len
    ensures databuff[..len] == fp.bytes[old(fp.pos)..fp.pos]
  {
    ghost var start := fp.pos;
    len := 0;
    while true
      invariant fp.Valid() && 0 <= len < databuff.Length && fp.pos == start + len
      invariant forall k :: 0 <= k < len ==> databuff[k] == fp.bytes[start + k]
      decreases databuff.Length - len
    {
      var c := fp.GetChar();
      if fp.eof {
        break;
      }
      databuff[len] := c;
      len := len + 1;
      if len >= databuff.Length {
        break;
      }
    }
  }

  /** The hub in bootloader mode: an erasable flash and a write address. */
  class Device {
    const flash: array<Byte>
    var address: nat

    constructor (capacity: nat)
      ensures flash.Length == capacity && fresh(flash)
    {
      flash := new Byte[capacity];
      address := 0;
    }

    method MassErase(fill: Byte)
      modifies flash
      ensures flash[..] == Fill(flash.Length, fill)
    {
      var i := 0;
      while i < flash.Length
        invariant 0 <= i <= flash.Length
        invariant forall k :: 0 <= k < i ==> flash[k] == fill
      {
        flash[i] := fill;
        i := i + 1;
      }
    }

    /** Programs a packet at the write address and advances it past the bytes taken; `answer` is
        negative when the device fails, and otherwise how much it takes. Fails past the end of flash. */
    method Write(packet: array<Byte>, len: nat, answer: int) returns (ret: int)
      requires 0 < len <= packet.Length && packet != flash && FLASH_START_ADDRESS <= address
      modifies this, flash
      ensures var at := old(address) - FLASH_START_ADDRESS;
        if 0 <= answer && at + len <= flash.Length then
          ret == Taken(answer, len) && address == old(address) + ret
          && flash[..] == old(flash[..at]) + packet[..ret] + old(flash[at + ret..])
        else ret < 0 && address == old(address) && flash[..] == old(flash[..])
    {
      var at := address - FLASH_START_ADDRESS;
      if answer < 0 || at + len > flash.Length {
        return -1;
      }
      ret := Taken(answer, len);
      var i := 0;
      while i < ret
        modifies flash
        invariant 0 <= i <= ret
        invariant forall k :: 0 <= k < i ==> flash[at + k] == packet[k]
        invariant forall k :: 0 <= k < at || at + i <= k < flash.Length ==> flash[k] == old(flash[k])
      {
        flash[at + i] := packet[i];
        i := i + 1;
      }
      address := address + ret;
    }
  }

  /** How many of `len` bytes a device takes that answers without an error. */
  function Taken(answer: int, len: nat): nat
    requires 0 <= answer
  {
    if answer < len then answer else len
  }

  // ----- an attempt on values

  /** The packet that starts at position `pos` of a file. */
  function Packet(file: seq<Byte>, pos: nat, max: nat, fill: Byte): seq<Byte>
    requires pos <= |file|
  {
    var n := Take(|file|, pos, max);
    file[pos..pos + n] + Fill(RoundUp8(n) - n, fill)
  }

  /** What an attempt programs, one byte after another, if it succeeds. */
  datatype Flashing = Failed | Sent(bytes: seq<Byte>)

  /** The packets from position `pos` on, behind what was sent before; `io` holds the device's answers
      from number `k` on. A packet of which the device takes only a part counts as sent. */
  function Sends(file: seq<Byte>, pos: nat, max: nat, fill: Byte, io: nat -> int, k: nat, sent: seq<Byte>, capacity: nat): Flashing
    requires pos <= |file| && 0 < max
    decreases |file| - pos
  {
    if pos == |file| then Sent(sent)
    else
      var packet := Packet(file, pos, max, fill);
      if io(k) < 0 || |sent| + |packet| > capacity then Failed
      else Sends(file, pos + Take(|file|, pos, max), max, fill, io, k + 1,
                 sent + packet[..Taken(io(k), |packet|)], capacity)
  }

  /** One attempt: three control calls and then the packets. */
  function Attempt(file: seq<Byte>, max: nat, fill: Byte, io: nat -> int, capacity: nat): Flashing
    requires 0 < max
  {
    if io(0) < 0 || io(1) < 0 || io(2) < 0 then Failed else Sends(file, 0, max, fill, io, 3, [], capacity)
  }

  /** Whether every packet from position `pos` on is taken whole. */
  predicate WholeWrites(size: nat, pos: nat, max: nat, io: nat -> int, k: nat)
    requires pos <= size && 0 < max
    decreases size - pos
  {
    pos == size || (RoundUp8(Take(size, pos, max)) <= io(k) && WholeWrites(size, pos + Take(size, pos, max), max, io, k + 1))
  }

  /** The file, filled up to a multiple of 8 bytes. */
  function Filled(file: seq<Byte>, fill: Byte): seq<Byte> {
    file + Fill(RoundUp8(|file|) - |file|, fill)
  }

  lemma PacketAppended(file: seq<Byte>, pos: nat, max: nat, fill: Byte)
    requires pos < |file| && pos % 8 == 0 && 0 < max && max % 8 == 0
    ensures var n := Take(|file|, pos, max);
      && Filled(file[..pos], fill) + Packet(file, pos, max, fill) == Filled(file[..pos + n], fill)
      && |Filled(file[..pos], fill)| == pos
      && |Packet(file, pos, max, fill)| == RoundUp8(n) == RoundUp8(pos + n) - pos
      && (pos + n == |file| || (pos + n) % 8 == 0)
  {
    var n := Take(|file|, pos, max);
    RoundUp8Aligned(pos, n);
    assert Filled(file[..pos], fill) == file[..pos];
    assert file[..pos] + file[pos..pos + n] == file[..pos + n];
  }

  /** With every packet taken whole, the attempt succeeds exactly when the filled file fits, and what
      it programs is the filled file. */
  lemma {:induction false} WholeSends(file: seq<Byte>, pos: nat, max: nat, fill: Byte, io: nat -> int, k: nat, capacity: nat)
    requires pos <= |file| && 0 < max && max % 8 == 0 && (pos == |file| || pos % 8 == 0)
    requires WholeWrites(|file|, pos, max, io, k) && (pos == |file| ==> RoundUp8(|file|) <= capacity)
    ensures Sends(file, pos, max, fill, io, k, Filled(file[..pos], fill), capacity)
         == if RoundUp8(|file|) <= capacity then Sent(Filled(file, fill)) else Failed
    decreases |file| - pos
  {
    if pos == |file| {
      assert file[..pos] == file;
    } else {
      var n := Take(|file|, pos, max);
      var packet := Packet(file, pos, max, fill);
      PacketAppended(file, pos, max, fill);
      RoundUp8Monotone(pos + n, |file|);
      hide Filled;
      hide Packet;
      hide RoundUp8;
      assert packet[..|packet|] == packet;
      if pos + RoundUp8(n) <= capacity {
        WholeSends(file, pos + n, max, fill, io, k + 1, capacity);
      }
    }
  }

  /** And whenever an attempt succeeds, as much is programmed as the filled file holds if and only if
      every packet was taken whole; otherwise less. */
  lemma {:induction false} SentLength(file: seq<Byte>, pos: nat, max: nat, fill: Byte, io: nat -> int, k: nat,
                                      sent: seq<Byte>, capacity: nat)
    requires pos <= |file| && 0 < max && max % 8 == 0 && (pos == |file| || pos % 8 == 0)
    requires Sends(file, pos, max, fill, io, k, sent, capacity).Sent?
    ensures var bytes := Sends(file, pos, max, fill, io, k, sent, capacity).bytes;
      var goal := |sent| + RoundUp8(|file|) - RoundUp8(pos);
      |bytes| <= goal && (|bytes| == goal <==> WholeWrites(|file|, pos, max, io, k))
    decreases |file| - pos
  {
    if pos < |file| {
      var n := Take(|file|, pos, max);
      var packet := Packet(file, pos, max, fill);
      PacketAppended(file, pos, max, fill);
      hide Filled;
      hide Packet;
      assert RoundUp8(pos) == pos;
      hide RoundUp8;
      SentLength(file, pos + n, max, fill, io, k + 1, sent + packet[..Taken(io(k), |packet|)], capacity);
    }
  }

  /** A successful attempt has programmed the filled file if and only if the device took every packet
      whole; and if it takes them whole, it succeeds exactly when the filled file fits. */
  lemma AttemptExact(file: seq<Byte>, max: nat, fill: Byte, io: nat -> int, capacity: nat)
    requires 0 < max && max % 8 == 0
    ensures var a := Attempt(file, max, fill, io, capacity);
      && (a.Sent? ==> (a.bytes == Filled(file, fill) <==> WholeWrites(|file|, 0, max, io, 3)))
      && (0 <= io(0) && 0 <= io(1) && 0 <= io(2) && WholeWrites(|file|, 0, max, io, 3)
          ==> (a.Sent? <==> RoundUp8(|file|) <= capacity))
  {
    assert file[..0] == [] && Filled([], fill) == [];
    assert |Filled(file, fill)| == RoundUp8(|file|);
    if WholeWrites(|file|, 0, max, io, 3) && (file == [] ==> RoundUp8(|file|) <= capacity) {
      WholeSends(file, 0, max, fill, io, 3, capacity);
    }
    if Attempt(file, max, fill, io, capacity).Sent? {
      SentLength(file, 0, max, fill, io, 3, [], capacity);
    }
    hide Filled;
    hide Sends;
    hide WholeWrites;
  }

  /** What is programmed then, byte by byte: a multiple of 8 bytes, fewer than 8 more than the file,
      which are the file and then the fill value. */
  lemma WholeBytes(file: seq<Byte>, max: nat, fill: Byte, io: nat -> int, capacity: nat)
    requires 0 < max && max % 8 == 0
    requires Attempt(file, max, fill, io, capacity).Sent? && WholeWrites(|file|, 0, max, io, 3)
    ensures var bytes := Attempt(file, max, fill, io, capacity).bytes;
      && |bytes| % 8 == 0 && |file| <= |bytes| < |file| + 8
      && (forall k :: 0 <= k < |file| ==> bytes[k] == file[k])
      && (forall k :: |file| <= k < |bytes| ==> bytes[k] == fill)
  {
    AttemptExact(file, max, fill, io, capacity);
    RoundUp8Meaning(|file|);
    hide Attempt;
    hide WholeWrites;
    hide RoundUp8;
  }

  /** A successful attempt has met no error, neither of a control call nor of a packet; there is a
      packet for every `max` bytes of the file begun. */
  lemma {:induction false} SuccessMeetsNoError(file: seq<Byte>, pos: nat, max: nat, fill: Byte, io: nat -> int, k: nat,
                                               sent: seq<Byte>, capacity: nat, j: nat)
    requires pos <= |file| && 0 < max && Sends(file, pos, max, fill, io, k, sent, capacity).Sent?
    requires k <= j && pos + (j - k) * max < |file|
    ensures 0 <= io(j)
    decreases |file| - pos
  {
    hide Packet;
    if k < j {
      assert (j - k) * max >= max by { NoLess(j - k, max); }
      assert (j - k) * max == (j - (k + 1)) * max + max;
      SuccessMeetsNoError(file, pos + max, max, fill, io, k + 1,
                          sent + Packet(file, pos, max, fill)[..Taken(io(k), |Packet(file, pos, max, fill)|)], capacity, j);
    }
  }

  lemma NoLess(n: nat, max: nat)
    requires 0 < n
    ensures max <= n * max
  {}

  /** Then flash holds the file and fill bytes only. */
  lemma WholeDownload(file: seq<Byte>, max: nat, fill: Byte, io: nat -> int, capacity: nat)
    requires 0 < max && max % 8 == 0
    requires Attempt(file, max, fill, io, capacity).Sent? && WholeWrites(|file|, 0, max, io, 3)
    ensures RoundUp8(|file|) <= capacity
    ensures Padded(Attempt(file, max, fill, io, capacity).bytes, capacity, fill) == Padded(file, capacity, fill)
  {
    AttemptExact(file, max, fill, io, capacity);
    SuccessfulControl(file, max, fill, io, capacity);
    hide Attempt;
    hide WholeWrites;
    var f := Fill(capacity - RoundUp8(|file|), fill);
    assert Padded(Filled(file, fill), capacity, fill) == Filled(file, fill) + f;
    assert Filled(file, fill) + f == Padded(file, capacity, fill);
  }

  lemma SuccessfulControl(file: seq<Byte>, max: nat, fill: Byte, io: nat -> int, capacity: nat)
    requires 0 < max && Attempt(file, max, fill, io, capacity).Sent?
    ensures 0 <= io(0) && 0 <= io(1) && 0 <= io(2)
  {}

  // ----- the stateful download

  /** Flash holds what was sent and then fill, and the write address is behind it. */
  ghost predicate Holds(sent: seq<Byte>, flash: seq<Byte>, address: nat, fill: Byte) {
    |sent| <= |flash| && flash == Padded(sent, |flash|, fill) && address == FLASH_START_ADDRESS + |sent|
  }

  lemma SentAppended(sent: seq<Byte>, flash: seq<Byte>, address: nat, fill: Byte, data: seq<Byte>)
    requires Holds(sent, flash, address, fill) && |sent| + |data| <= |flash|
    ensures Holds(sent + data, flash[..|sent|] + data + flash[|sent| + |data|..], address + |data|, fill)
  {
    var f := Fill(|flash| - |sent| - |data|, fill);
    assert flash[..|sent|] == sent && flash[|sent| + |data|..] == f;
  }

  lemma RoundUp8Aligned(pos: nat, n: nat)
    requires pos % 8 == 0
    ensures RoundUp8(pos + n) == pos + RoundUp8(n)
  {}

  lemma RoundUp8Monotone(m: nat, n: nat)
    requires m <= n
    ensures RoundUp8(m) <= RoundUp8(n)
  {}

  /** Reads one packet and writes it, unless the file is at its end or the device fails. */
  method SendPacket(filep: FileStream, dev: Device, packet: array<Byte>, fill: Byte, answer: int, ghost sent: seq<Byte>)
    returns (packetlength: nat, ret: int)
    requires filep.Valid() && 0 < packet.Length && packet.Length % 8 == 0 && packet != dev.flash
    requires Holds(sent, dev.flash[..], dev.address, fill)
    modifies filep, dev, dev.flash, packet
    ensures filep.Valid()
    ensures filep.pos == old(filep.pos) + Take(|filep.bytes|, old(filep.pos), packet.Length)
    ensures packetlength == 0 <==> old(filep.pos) == |filep.bytes|
    ensures packetlength == 0 ==> dev.flash[..] == old(dev.flash[..]) && dev.address == old(dev.address)
    ensures var p := Packet(filep.bytes, old(filep.pos), packet.Length, fill);
      packetlength != 0 ==>
        && (STM_SUCCESS <= ret <==> 0 <= answer && |sent| + |p| <= dev.flash.Length)
        && (STM_SUCCESS <= ret ==> Holds(sent + p[..Taken(answer, |p|)], dev.flash[..], dev.address, fill))
  {
    hide Padded;
    hide Fill;
    ghost var p := Packet(filep.bytes, filep.pos, packet.Length, fill);
    ghost var flash, address := dev.flash[..], dev.address;
    packetlength := GetPacket(filep, packet, fill);
    assert packet[..packetlength] == p;
    hide Packet;
    if packetlength == 0 {
      return packetlength, STM_SUCCESS;
    }
    ret := dev.Write(packet, packetlength, answer);
    if STM_SUCCESS <= ret {
      assert packet[..ret] == p[..ret];
      SentAppended(sent, flash, address, fill, p[..ret]);
    }
  }

  /** One attempt to download the whole file, with the device answering as `io` says. On success flash
      holds what the device took and fill bytes behind it, whatever it held before. */
  method DownloadFirmware(filep: FileStream, dev: Device, fill: Byte, maxPacket: nat, io: nat -> int) returns (ret: int)
    requires filep.Valid() && 0 < maxPacket && maxPacket % 8 == 0
    modifies filep, dev, dev.flash
    ensures filep.Valid()
    ensures var a := Attempt(filep.bytes, maxPacket, fill, io, dev.flash.Length);
      && (STM_SUCCESS <= ret <==> a.Sent?)
      && (a.Sent? ==> dev.flash[..] == Padded(a.bytes, dev.flash.Length, fill) && dev.address == 0x0800_0000 + |a.bytes|)
      && (a.Sent? && WholeWrites(|filep.bytes|, 0, maxPacket, io, 3)
          ==> dev.flash[..] == Padded(filep.bytes, dev.flash.Length, fill))
  {
    hide Padded;
    hide Packet;
    if io(0) < 0 {
      return STM_FAILURE;
    }
    if io(1) < 0 {
      return STM_FAILURE;
    }
    dev.MassErase(fill);
    if io(2) < 0 {
      return STM_FAILURE;
    }
    dev.address := FLASH_START_ADDRESS;
    ret := STM_SUCCESS;
    filep.Rewind();
    ghost var sent: seq<Byte> := [];
    NothingSent(dev.flash[..], fill);
    var packet := new Byte[maxPacket];
    var k := 3;
    var packetlength := 1;
    ghost var goal := Sends(filep.bytes, 0, maxPacket, fill, io, 3, [], dev.flash.Length);
    while packetlength != 0
      invariant filep.Valid() && STM_SUCCESS <= ret && 3 <= k
      invariant Holds(sent, dev.flash[..], dev.address, fill)
      invariant packetlength == 0 ==> filep.pos == |filep.bytes|
      invariant Sends(filep.bytes, filep.pos, maxPacket, fill, io, k, sent, dev.flash.Length) == goal
      decreases |filep.bytes| - filep.pos, packetlength
    {
      var r;
      ghost var p := Packet(filep.bytes, filep.pos, maxPacket, fill);
      packetlength, r := SendPacket(filep, dev, packet, fill, io(k), sent);
      if packetlength == 0 {
        break;
      }
      ret := r;
      if ret < 0 {
        return ret;
      }
      sent := sent + p[..Taken(io(k), |p|)];
      k := k + 1;
    }
    if WholeWrites(|filep.bytes|, 0, maxPacket, io, 3) {
      WholeDownload(filep.bytes, maxPacket, fill, io, dev.flash.Length);
    }
  }

  lemma NothingSent(flash: seq<Byte>, fill: Byte)
    requires flash == Fill(|flash|, fill)
    ensures Holds([], flash, FLASH_START_ADDRESS, fill)
  {}

  /** Up to three attempts; the first that succeeds decides what flash holds, whatever failed before. */
  method DownloadWithRetries(filep: FileStream, dev: Device, fill: Byte, maxPacket: nat, io: nat -> nat -> int)
    returns (ret: int, ghost attempt: nat)
    requires filep.Valid() && 0 < maxPacket && maxPacket % 8 == 0
    modifies filep, dev, dev.flash
    ensures ret == if attempt < 3 then 0 else -1
    ensures attempt <= 3
    ensures forall t: nat :: t < attempt ==> Attempt(filep.bytes, maxPacket, fill, io(t), dev.flash.Length).Failed?
    ensures ret == 0 ==>
      var a := Attempt(filep.bytes, maxPacket, fill, io(attempt), dev.flash.Length);
      && a.Sent? && dev.flash[..] == Padded(a.bytes, dev.flash.Length, fill)
      && (WholeWrites(|filep.bytes|, 0, maxPacket, io(attempt), 3)
          ==> dev.flash[..] == Padded(filep.bytes, dev.flash.Length, fill))
  {
    hide Padded;
    hide Attempt;
    hide WholeWrites;
    var tries: nat := 0;
    while tries < STM_DOWNLOADRETRIES
      invariant filep.Valid() && tries <= STM_DOWNLOADRETRIES
      invariant forall t: nat :: t < tries ==> Attempt(filep.bytes, maxPacket, fill, io(t), dev.flash.Length).Failed?
    {
      var r := DownloadFirmware(filep, dev, fill, maxPacket, io(tries));
      if r >= STM_SUCCESS {
        break;
      }
      tries := tries + 1;
    }
    ret, attempt := if tries >= STM_DOWNLOADRETRIES then -1 else 0, tries;
  }

  // ----- the version check

  /** After a download the hub's flash CRC is the file CRC, for every file that fits. */
  lemma DownloadMatches(file: seq<Byte>, flash: seq<Byte>, size: nat, fill: Byte)
    requires flash == Padded(file, |flash|, fill)
    requires |file| <= size <= |flash|
    ensures Crc(flash[..size]) == Crc(Padded(file, size, fill))
  {
    assert flash[..size] == Padded(file, size, fill);
  }

  /** Whether the hub runs the file's firmware. A file that cannot be read counts as a match; a hub
      CRC of 0 counts as unreadable and so never matches. */
  method VersionCheck(fileVersion: string, file: File, hwVersion: string, hwCrc: bv32, size: nat, fill: Byte)
    returns (matches: bool)
    ensures matches <==> (fileVersion == "" || file.Unreadable?
      || (hwVersion == fileVersion && hwCrc != 0 && hwCrc == Crc(Padded(file.bytes, size, fill))))
  {
    hide Crc;
    if fileVersion == "" {
      return true;
    }
    var res, fileCrc := CalculateFileCrc32(file, size, fill);
    if res < 0 {
      return true;
    }
    if hwVersion == "" {
      return false;
    }
    if hwCrc == 0 {
      return false;
    }
    return hwVersion == fileVersion && fileCrc == hwCrc;
  }

  /** Download, and then the check of the CRC that the hub computes over its flash: if the device took
      every packet of the successful attempt whole, the two CRCs agree, so that the check comes down
      to the version strings, except for a firmware whose CRC is 0, which is never recognized. */
  method DownloadAndCheck(filep: FileStream, dev: Device, fill: Byte, maxPacket: nat, io: nat -> nat -> int,
                          size: nat, fileVersion: string, hwVersion: string)
    returns (ret: int, matches: bool, ghost attempt: nat)
    requires filep.Valid() && 0 < maxPacket && maxPacket % 8 == 0
    requires |filep.bytes| <= size <= dev.flash.Length
    modifies filep, dev, dev.flash
    ensures ret == 0 && WholeWrites(|filep.bytes|, 0, maxPacket, io(attempt), 3) ==>
      && Crc(dev.flash[..size]) == Crc(Padded(filep.bytes, size, fill))
      && (matches <==> fileVersion == ""
                       || (hwVersion == fileVersion && Crc(Padded(filep.bytes, size, fill)) != 0))
  {
    hide Crc;
    hide Padded;
    hide Filled;
    hide Attempt;
    hide WholeWrites;
    ret, attempt := DownloadWithRetries(filep, dev, fill, maxPacket, io);
    var hwCrc := CalculateCrc32(dev.flash, size);
    matches := VersionCheck(fileVersion, Readable(filep.bytes), hwVersion, hwCrc, size, fill);
    if ret == 0 && WholeWrites(|filep.bytes|, 0, maxPacket, io(attempt), 3) {
      DownloadMatches(filep.bytes, dev.flash[..], size, fill);
    }
  }

  /** A flash image damaged inside any window of four bytes fails the version check. */
  lemma DamageDetected(file: seq<Byte>, flash: seq<Byte>, size: nat, fill: Byte, i: nat)
    requires |file| <= size <= |flash| && i <= size
    requires flash[..size] != Padded(file, size, fill)
    requires forall j :: 0 <= j < size && (j < i || i + 4 <= j) ==> flash[j] == Padded(file, size, fill)[j]
    ensures Crc(flash[..size]) != Crc(Padded(file, size, fill))
  {
    hide Crc;
    WindowDetected(flash[..size], Padded(file, size, fill), i);
  }
}
