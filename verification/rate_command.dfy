/** The rate-change control channel between the streaming client and the
    controller in front of the traffic source: a command is the four raw bytes
    of a 32-bit unsigned bitrate, and the controller applies every command it
    can read, in arrival order. The source copies the integer's bytes in host
    order on both ends; this model fixes that shared convention as
    little-endian. */
module RateCommand {
  import opened Common

  type Datagram = seq<byte>

  /** Size in bytes of one rate command. */
  const CommandSize: nat := 4

  /** `SendRateUpdate`'s payload: the bytes of `bitrate`, least significant first. */
  function Encode(bitrate: uint32): (d: Datagram)
    ensures |d| == CommandSize
  {
    [bitrate % 0x100, (bitrate / 0x100) % 0x100,
     (bitrate / 0x1_0000) % 0x100, bitrate / 0x100_0000]
  }

  /** The controller's reading of a datagram: the first four bytes as a
      bitrate when there are at least four, nothing otherwise. */
  function Decode(d: Datagram): (r: Option<uint32>)
    ensures r.Some? <==> |d| >= CommandSize
  {
    if |d| < CommandSize then None
    else
      var b0: nat, b1: nat, b2: nat, b3: nat := d[0], d[1], d[2], d[3];
      Some(b0 + 0x100 * b1 + 0x1_0000 * b2 + 0x100_0000 * b3)
  }

  /** Every bitrate survives the channel, whatever follows the command. */
  lemma DecodeEncode(bitrate: uint32, trailer: Datagram)
    ensures Decode(Encode(bitrate) + trailer) == Some(bitrate)
  {
    var d := Encode(bitrate) + trailer;
    assert d[0] == bitrate % 0x100 && d[1] == (bitrate / 0x100) % 0x100;
    assert d[2] == (bitrate / 0x1_0000) % 0x100 && d[3] == bitrate / 0x100_0000;
    ByteDigits(bitrate);
  }

  /** A 32-bit number is the sum of its four bytes at their weights. */
  lemma ByteDigits(v: uint32)
    ensures v == v % 0x100 + 0x100 * ((v / 0x100) % 0x100)
               + 0x1_0000 * ((v / 0x1_0000) % 0x100) + 0x100_0000 * (v / 0x100_0000)
  {
    var q1 := v / 0x100;
    var q2 := q1 / 0x100;
    var q3 := q2 / 0x100;
    assert v == 0x100 * q1 + v % 0x100;
    assert q1 == 0x100 * q2 + q1 % 0x100;
    assert q2 == 0x100 * q3 + q2 % 0x100;
    assert v / 0x1_0000 == q2;
    assert v / 0x100_0000 == q3;
  }

  /** The other direction: a readable datagram is the encoding of what it
      decodes to, followed by bytes the controller ignores. */
  lemma EncodeDecode(d: Datagram)
    requires |d| >= CommandSize
    ensures Encode(Decode(d).value) == d[..CommandSize]
  {
    var b0: nat, b1: nat, b2: nat, b3: nat := d[0], d[1], d[2], d[3];
    var v := Decode(d).value;
    assert v == b0 + 0x100 * (b1 + 0x100 * (b2 + 0x100 * b3));
    ByteSplit(b0, b1 + 0x100 * (b2 + 0x100 * b3));
    ByteSplit(b1, b2 + 0x100 * b3);
    ByteSplit(b2, b3);
    assert v / 0x1_0000 == (v / 0x100) / 0x100;
    assert v / 0x100_0000 == ((v / 0x100) / 0x100) / 0x100;
  }

  lemma ByteSplit(lo: nat, hi: nat)
    requires lo < 0x100
    ensures (lo + 0x100 * hi) % 0x100 == lo
    ensures (lo + 0x100 * hi) / 0x100 == hi
  {
  }

  /** The server-side controller: whether an on/off traffic source is attached
      and the data rate that source currently sends at. */
  datatype Controller = Controller(sourceAttached: bool, dataRate: nat)

  /** Whether datagram `i` of a batch is the last readable one. */
  ghost predicate LastReadable(batch: seq<Datagram>, i: int)
  {
    && 0 <= i < |batch|
    && |batch[i]| >= CommandSize
    && forall j :: i < j < |batch| ==> |batch[j]| < CommandSize
  }

  /** `HandleControlRead`: drain a batch of received datagrams; each readable
      one sets the traffic source's rate (when a source is attached) and
      shorter ones are skipped. */
  method HandleControlRead(c: Controller, batch: seq<Datagram>) returns (c': Controller)
    ensures c'.sourceAttached == c.sourceAttached
    ensures !c.sourceAttached ==> c' == c
    ensures c.sourceAttached && (exists i :: LastReadable(batch, i)) ==>
              exists i :: LastReadable(batch, i) && c'.dataRate == Decode(batch[i]).value
    ensures (forall j :: 0 <= j < |batch| ==> |batch[j]| < CommandSize) ==> c' == c
  {
    c' := c;
    ghost var last := -1;
    var k := 0;
    while k < |batch|
      invariant 0 <= k <= |batch|
      invariant -1 <= last < k
      invariant c'.sourceAttached == c.sourceAttached
      invariant !c.sourceAttached ==> c' == c
      invariant last == -1 ==> c' == c
      invariant last == -1 ==> forall j :: 0 <= j < k ==> |batch[j]| < CommandSize
      invariant last >= 0 ==> |batch[last]| >= CommandSize
      invariant last >= 0 ==> forall j :: last < j < k ==> |batch[j]| < CommandSize
      invariant last >= 0 && c.sourceAttached ==> c'.dataRate == Decode(batch[last]).value
    {
      var rate := Decode(batch[k]);
      if rate.Some? {
        if c.sourceAttached {
          c' := c'.(dataRate := rate.value);
        }
        last := k;
      }
      k := k + 1;
    }
    if last >= 0 {
      assert LastReadable(batch, last);
    }
  }
}
