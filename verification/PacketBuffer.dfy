/**
 Bytes packed into 64-bit words across packets of 2048 words. The buffer holds exactly what was
 written to it, and everything behind the write position is zero.
 */
module PacketBuffer {
  import opened Words

  const WORDS: nat := 2048
  const PACKET_BYTES: nat := 16384

  type Packet = p: seq<bv64> | |p| == WORDS witness seq(WORDS, _ => 0)

  // Where byte `k` lies: which packet, which word of it, which byte of that word.
  function PacketOf(k: nat): nat { k / PACKET_BYTES }
  function WordOf(k: nat): (w: nat) ensures w < WORDS { k % PACKET_BYTES / 8 }
  function SlotOf(k: nat): (b: nat) ensures b < 8 { k % PACKET_BYTES % 8 }

  lemma SamePlace(k: nat, j: nat)
    requires PacketOf(k) == PacketOf(j) && WordOf(k) == WordOf(j) && SlotOf(k) == SlotOf(j)
    ensures k == j
  {
  }

  /** Byte `k` of a run of packets laid out one after the other in memory. */
  function StoredByte(packets: seq<Packet>, k: nat): bv8
    requires PacketOf(k) < |packets|
  {
    ByteOf(packets[PacketOf(k)][WordOf(k)], SlotOf(k))
  }

  /** The packets spell `contents`, and every byte behind it is zero. */
  ghost predicate Holding(packets: seq<Packet>, contents: seq<bv8>) {
    && |contents| <= PACKET_BYTES * |packets|
    && forall k: nat | PacketOf(k) < |packets| ::
         StoredByte(packets, k) == if k < |contents| then contents[k] else 0
  }

  /** `packets[p][w] |= uint64(b) << (8*i)`, for the place of byte `k`. */
  function PutByte(packets: seq<Packet>, k: nat, b: bv8): (r: seq<Packet>)
    requires PacketOf(k) < |packets|
    ensures |r| == |packets|
  {
    var p, w := PacketOf(k), WordOf(k);
    packets[p := packets[p][w := WithByte(packets[p][w], b, SlotOf(k))]]
  }

  lemma PutByteStores(packets: seq<Packet>, k: nat, b: bv8, j: nat)
    requires PacketOf(k) < |packets| && PacketOf(j) < |packets| && StoredByte(packets, k) == 0
    ensures StoredByte(PutByte(packets, k, b), j) == if j == k then b else StoredByte(packets, j)
  {
    hide ByteOf, WithByte, PacketOf, WordOf, SlotOf;
    if PacketOf(k) == PacketOf(j) && WordOf(k) == WordOf(j) {
      WithByteStores(packets[PacketOf(k)][WordOf(k)], b, SlotOf(k), SlotOf(j));
      if SlotOf(k) == SlotOf(j) {
        SamePlace(k, j);
      }
    }
  }

  /** The rest of a word lies in the same packet and word. */
  lemma SameWord(k: nat, i: nat)
    requires SlotOf(k) + i < 8
    ensures PacketOf(k + i) == PacketOf(k) && WordOf(k + i) == WordOf(k) && SlotOf(k + i) == SlotOf(k) + i
  {
    var q, r := k / PACKET_BYTES, k % PACKET_BYTES;
    assert k == PACKET_BYTES * q + r && r == 8 * (r / 8) + r % 8;
    DivideAs(k + i, q, r + i);
  }

  lemma DivideAs(k: nat, q: nat, r: nat)
    requires k == PACKET_BYTES * q + r && r < PACKET_BYTES
    ensures k / PACKET_BYTES == q && k % PACKET_BYTES == r
  {
  }

  /** One more byte behind the contents. */
  lemma PutByteHolds(packets: seq<Packet>, contents: seq<bv8>, b: bv8)
    requires Holding(packets, contents) && PacketOf(|contents|) < |packets|
    ensures Holding(PutByte(packets, |contents|, b), contents + [b])
  {
    hide StoredByte, PutByte;
    var k := |contents|;
    PacketRoom(k, |packets|);
    forall j: nat | PacketOf(j) < |packets|
      ensures StoredByte(PutByte(packets, k, b), j) == if j < |contents + [b]| then (contents + [b])[j] else 0
    {
      hide PacketOf;
      PutByteStores(packets, k, b, j);
    }
  }

  lemma PacketRoom(k: nat, n: nat)
    ensures PacketOf(k) < n <==> k < PACKET_BYTES * n
  {
  }

  /** A fresh packet behind a full run. */
  lemma GrowHolds(packets: seq<Packet>, contents: seq<bv8>, blank: Packet)
    requires Holding(packets, contents) && PacketOf(|contents|) >= |packets|
    requires forall w | 0 <= w < WORDS :: blank[w] == 0
    ensures PacketOf(|contents|) == |packets| && Holding(packets + [blank], contents)
  {
    hide ByteOf;
    PacketRoom(|contents|, |packets|);
    ZeroBytes();
    forall k: nat | PacketOf(k) < |packets + [blank]|
      ensures StoredByte(packets + [blank], k) == if k < |contents| then contents[k] else 0
    {
      PacketRoom(k, |packets|);
      if PacketOf(k) < |packets| {
        assert (packets + [blank])[PacketOf(k)] == packets[PacketOf(k)];
        assert StoredByte(packets + [blank], k) == StoredByte(packets, k);
      }
    }
  }

  lemma ZeroBytes()
    ensures forall i: nat | i < 8 :: ByteOf(0, i) == 0
  {
  }

  class Buffer {
    var packets: seq<Packet>
    var pos: nat
    ghost var contents: seq<bv8>

    /** The invariant of every run: the buffer holds its contents, and `pos` is their length. */
    ghost predicate Valid()
      reads this
    {
      pos == |contents| && Holding(packets, contents)
    }

    constructor ()
      ensures Valid() && contents == []
    {
      packets := [seq(WORDS, _ => 0)];
      pos := 0;
      contents := [];
      new;
      ZeroBytes();
      assert packets[0] == seq(WORDS, _ => 0);
    }

    method Write(data: seq<bv8>)
      requires Valid()
      modifies this
      ensures Valid() && contents == old(contents) + data
    {
      hide StoredByte, PutByte, Holding;
      var rest := data;
      ghost var done := [];
      while |rest| > 0
        invariant Valid() && contents == old(contents) + done && done + rest == data
        decreases |rest|
      {
        var packetIdx := pos / PACKET_BYTES;
        var byteIdx := pos % PACKET_BYTES;
        var wordIdx := byteIdx / 8;
        var byteInWord := byteIdx % 8;
        if packetIdx >= |packets| {
          GrowHolds(packets, contents, seq(WORDS, _ => 0));
          packets := packets + [seq(WORDS, _ => 0)];
        }
        var toWrite := |rest|;
        if toWrite > 8 - byteInWord {
          toWrite := 8 - byteInWord;
        }
        WriteInWord(rest[..toWrite], packetIdx, wordIdx, byteInWord);
        done := done + rest[..toWrite];
        rest := rest[toWrite..];
        pos := pos + toWrite;
      }
    }

    /** The inner loop: bytes that fit in the rest of the current word. */
    method WriteInWord(data: seq<bv8>, packetIdx: nat, wordIdx: nat, byteInWord: nat)
      requires pos == |contents| && Holding(packets, contents)
      requires packetIdx == PacketOf(pos) < |packets| && wordIdx == WordOf(pos) && byteInWord == SlotOf(pos)
      requires byteInWord + |data| <= 8
      modifies `packets, `contents
      ensures Holding(packets, contents) && contents == old(contents) + data
    {
      hide StoredByte, Holding, PacketOf, WordOf, SlotOf, WithByte;
      for i := 0 to |data|
        invariant |packets| == old(|packets|) && Holding(packets, contents)
        invariant contents == old(contents) + data[..i]
      {
        SameWord(pos, i);
        PutByteHolds(packets, contents, data[i]);
        packets := packets[packetIdx := packets[packetIdx][wordIdx := WithByte(packets[packetIdx][wordIdx], data[i], byteInWord + i)]];
        contents := contents + [data[i]];
        assert data[..i + 1] == data[..i] + [data[i]];
      }
    }

    /** The bytes behind a view: memory read on from byte `offset`, across words and packets. */
    method ReadView(offset: nat, length: nat) returns (text: seq<bv8>)
      requires Valid() && offset + length <= pos
      ensures text == contents[offset..offset + length]
    {
      hide StoredByte, PacketOf;
      text := [];
      for i := 0 to length
        invariant text == contents[offset..offset + i]
      {
        PacketRoom(offset + i, |packets|);
        text := text + [StoredByte(packets, offset + i)];
      }
    }
  }

  /** Writes one after the other are one write of everything. */
  method WriteAll(buffer: Buffer, pieces: seq<seq<bv8>>)
    requires buffer.Valid()
    modifies buffer
    ensures buffer.Valid() && buffer.contents == old(buffer.contents) + Concat(pieces)
  {
    for i := 0 to |pieces|
      invariant buffer.Valid() && buffer.contents == old(buffer.contents) + Concat(pieces[..i])
    {
      buffer.Write(pieces[i]);
      ConcatSnoc(pieces[..i], pieces[i]);
      assert pieces[..i + 1] == pieces[..i] + [pieces[i]];
    }
    assert pieces[..|pieces|] == pieces;
  }

  function Concat(pieces: seq<seq<bv8>>): seq<bv8> {
    if pieces == [] then [] else pieces[0] + Concat(pieces[1..])
  }

  lemma {:induction false} ConcatSnoc(pieces: seq<seq<bv8>>, last: seq<bv8>)
    ensures Concat(pieces + [last]) == Concat(pieces) + last
  {
    var all := pieces + [last];
    if pieces == [] {
      assert all[1..] == [];
    } else {
      assert all[1..] == pieces[1..] + [last];
      ConcatSnoc(pieces[1..], last);
    }
  }
}
