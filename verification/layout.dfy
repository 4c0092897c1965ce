/** The byte layout of an encrypted secret, `[nonce][tag][ciphertext]`, and
    the way `decrypt_value` cuts it apart with Python slices and reassembles
    the `ciphertext + tag` buffer that AES-GCM expects. */
module Layout {
  import opened Crypto

  /** Bytes of nonce at the front of every encrypted value. */
  const NonceSize: int := 12

  /** Tag length `decrypt_value` assumes when the caller passes none. */
  const DefaultTagSize: int := 16

  function Min(a: int, b: int): int { if a <= b then a else b }
  function Max(a: int, b: int): int { if a <= b then b else a }

  /** Where a Python slice bound `i` lands in a sequence of length `n`:
      a negative bound counts from the end, and the result is clamped
      into `[0, n]`. */
  function SliceBound(i: int, n: nat): (k: nat)
    ensures k <= n
  {
    if i < 0 then Max(0, n + i) else Min(i, n)
  }

  /** `s[lo:hi]`. */
  function Slice<T>(s: seq<T>, lo: int, hi: int): (r: seq<T>)
    ensures |r| == Max(0, SliceBound(hi, |s|) - SliceBound(lo, |s|))
    ensures forall k | 0 <= k < |r| :: r[k] == s[SliceBound(lo, |s|) + k]
  {
    var a := SliceBound(lo, |s|);
    var b := SliceBound(hi, |s|);
    if a < b then s[a..b] else []
  }

  /** The three fields of an encrypted value. */
  datatype Parts = Parts(nonce: Bytes, tag: Bytes, ciphertext: Bytes)

  /** `encrypted_data[:12]`, `encrypted_data[12:12 + tag_size]` and
      `encrypted_data[12 + tag_size:]`. */
  function Split(data: Bytes, tagSize: int): (p: Parts)
    ensures tagSize >= 0 ==> p.nonce + p.tag + p.ciphertext == data
    ensures |p.nonce| == Min(NonceSize, |data|)
    ensures tagSize >= 0 ==> |p.tag| == Min(tagSize, Max(0, |data| - NonceSize))
    ensures tagSize >= 0 ==> |p.ciphertext| == Max(0, |data| - NonceSize - tagSize)
  {
    var p := Parts(Slice(data, 0, NonceSize),
                   Slice(data, NonceSize, NonceSize + tagSize),
                   Slice(data, NonceSize + tagSize, |data|));
    if tagSize >= 0 then
      var i := Min(NonceSize, |data|);
      var j := Min(NonceSize + tagSize, |data|);
      assert p.nonce == data[..i];
      assert p.tag == data[i..j];
      assert p.ciphertext == data[j..];
      assert data == data[..i] + data[i..j] + data[j..];
      p
    else
      p
  }

  /** `ciphertext + tag`: the buffer handed to AES-GCM. */
  function Sealed(p: Parts): (b: Bytes)
    ensures |b| == |p.ciphertext| + |p.tag|
    ensures b[..|p.ciphertext|] == p.ciphertext && b[|p.ciphertext|..] == p.tag
  {
    p.ciphertext + p.tag
  }

  /** How the encrypting side lays a secret out before Base64-encoding it. */
  function Pack(p: Parts): Bytes {
    p.nonce + p.tag + p.ciphertext
  }

  /** Splitting a well-formed encrypted value recovers exactly the fields
      it was packed from. */
  lemma SplitPack(p: Parts, tagSize: int)
    requires |p.nonce| == NonceSize
    requires tagSize >= 0 && |p.tag| == tagSize
    ensures Split(Pack(p), tagSize) == p
  {
  }

  /** Packing the fields of any blob gives the blob back, whatever its
      length: no byte is lost or duplicated. */
  lemma PackSplit(data: Bytes, tagSize: int)
    requires tagSize >= 0
    ensures Pack(Split(data, tagSize)) == data
  {
  }

  /** With the default tag length, a blob too short to hold a nonce and a
      tag leaves the ciphertext empty and the tag short, and a blob holding
      only a nonce leaves the tag empty too. */
  lemma ShortBlobs(data: Bytes)
    ensures |data| <= NonceSize + DefaultTagSize ==> Split(data, DefaultTagSize).ciphertext == []
    ensures |data| <= NonceSize ==> Split(data, DefaultTagSize).tag == [] && Split(data, DefaultTagSize).nonce == data
  {
  }

  /** A negative tag length makes the fields overlap: for 20 bytes and a
      tag length of -4 the nonce is bytes 0..11, the tag is empty and the
      ciphertext is bytes 8..19, so 24 bytes come out of 20. */
  lemma NegativeTagSizeOverlaps(data: Bytes)
    requires |data| == 20
    ensures var p := Split(data, -4); |p.nonce| + |p.tag| + |p.ciphertext| == 24
    ensures Split(data, -4).ciphertext == data[8..]
  {
  }
}
