/**
 The bytes a rendition's cache key is digested from. Fixed-width fields may
 hold zero bytes, so a zero byte alone does not delimit the fields; the
 encoding is still unambiguous while either text field has none.
*/
module RenditionKeys {

  type Byte = b: nat | b < 256

  datatype Codec = Flac

  datatype Key = Key(track: seq<Byte>, subtune: nat, codec: Codec, renderer: seq<Byte>, rendererVersion: nat)

  ghost predicate ValidKey(key: Key) {
    key.subtune < 0x1_0000 && key.rendererVersion < 0x1_0000_0000
  }

  /** "emusic-render/v1" */
  const PREFIX: seq<Byte> := [101, 109, 117, 115, 105, 99, 45, 114, 101, 110, 100, 101, 114, 47, 118, 49]

  const ZERO: seq<Byte> := [0]

  function Token(codec: Codec): seq<Byte> {
    match codec case Flac => [102, 108, 97, 99]
  }

  /** `n` as `width` big-endian bytes. */
  function BigEndian(n: nat, width: nat): (bytes: seq<Byte>)
    ensures |bytes| == width
  {
    if width == 0 then [] else BigEndian(n / 256, width - 1) + [n % 256]
  }

  function Pow256(width: nat): nat {
    if width == 0 then 1 else 256 * Pow256(width - 1)
  }

  lemma {:induction false} BigEndianIsInjective(a: nat, b: nat, width: nat)
    requires a < Pow256(width) && b < Pow256(width) && BigEndian(a, width) == BigEndian(b, width)
    ensures a == b
  {
    if width == 0 {
    } else {
      var x, y := BigEndian(a, width), BigEndian(b, width);
      assert x[..width - 1] == BigEndian(a / 256, width - 1) && y[..width - 1] == BigEndian(b / 256, width - 1);
      assert x[width - 1] == a % 256 && y[width - 1] == b % 256;
      BigEndianIsInjective(a / 256, b / 256, width - 1);
    }
  }

  function Preimage(key: Key): seq<Byte> {
    PREFIX + ZERO + key.track + ZERO + BigEndian(key.subtune, 2) + ZERO + Token(key.codec) + ZERO
      + key.renderer + ZERO + BigEndian(key.rendererVersion, 4)
  }

  predicate NulFree(text: seq<Byte>) {
    forall i :: 0 <= i < |text| ==> text[i] != 0
  }

  /** Cutting at the first zero byte. */
  lemma FirstZero(a: seq<Byte>, b: seq<Byte>, a': seq<Byte>, b': seq<Byte>)
    requires NulFree(a) && NulFree(a') && a + ZERO + b == a' + ZERO + b'
    ensures a == a' && b == b'
  {
    var s := a + ZERO + b;
    assert s == a' + ZERO + b';
    assert s[|a|] == 0 && s[|a'|] == 0;
    assert s[..|a|] == a == a' && s[|a| + 1..] == b == b';
  }

  /** Cutting at the last zero byte. */
  lemma LastZero(a: seq<Byte>, b: seq<Byte>, a': seq<Byte>, b': seq<Byte>)
    requires NulFree(b) && NulFree(b') && a + ZERO + b == a' + ZERO + b'
    ensures a == a' && b == b'
  {
    var s := a + ZERO + b;
    assert s == a' + ZERO + b' && |s| == |a| + 1 + |b| == |a'| + 1 + |b'|;
    assert s[|a|] == 0 && s[|a'|] == 0;
    assert s[..|a|] == a == a' && s[|a| + 1..] == b == b';
  }

  /** Cutting where a part has a known length. */
  lemma SameLength<T>(a: seq<T>, b: seq<T>, a': seq<T>, b': seq<T>)
    requires a + b == a' + b' && (|a| == |a'| || |b| == |b'|)
    ensures a == a' && b == b'
  {
    assert |a| == |a'|;
    assert (a + b)[..|a|] == a && (a' + b')[..|a|] == a';
    assert (a + b)[|a|..] == b && (a' + b')[|a|..] == b';
  }

  /** What stands between the two text fields. */
  function Middle(key: Key): (m: seq<Byte>)
    ensures |m| == 2 + 1 + 4 + 1
  {
    BigEndian(key.subtune, 2) + ZERO + Token(key.codec) + ZERO
  }

  lemma PreimageParts(key: Key)
    ensures Preimage(key) == PREFIX + ZERO + (key.track + ZERO + (Middle(key) + (key.renderer + ZERO + BigEndian(key.rendererVersion, 4))))
    ensures Preimage(key) == PREFIX + ZERO + (((key.track + ZERO + Middle(key)[..7]) + ZERO + key.renderer) + (ZERO + BigEndian(key.rendererVersion, 4)))
  {
    assert Middle(key) == Middle(key)[..7] + ZERO;
  }

  lemma NumbersAgree(k: Key, k': Key)
    requires ValidKey(k) && ValidKey(k')
    requires Middle(k)[..7] == Middle(k')[..7] && BigEndian(k.rendererVersion, 4) == BigEndian(k'.rendererVersion, 4)
    ensures k.subtune == k'.subtune && k.rendererVersion == k'.rendererVersion && k.codec == k'.codec
  {
    assert Middle(k)[..7][..2] == BigEndian(k.subtune, 2) && Middle(k')[..7][..2] == BigEndian(k'.subtune, 2);
    assert Pow256(1) == 256 && Pow256(2) == 0x1_0000;
    BigEndianIsInjective(k.subtune, k'.subtune, 2);
    VersionsAgree(k.rendererVersion, k'.rendererVersion);
  }

  /** Equal preimages come from equal keys, when no track holds a zero byte, or
      no renderer does. */
  lemma PreimageIsUnambiguous(k: Key, k': Key)
    requires ValidKey(k) && ValidKey(k')
    requires (NulFree(k.track) && NulFree(k'.track)) || (NulFree(k.renderer) && NulFree(k'.renderer))
    ensures Preimage(k) == Preimage(k') ==> k == k'
  {
    if Preimage(k) == Preimage(k') {
      PreimageParts(k);
      PreimageParts(k');
      if NulFree(k.track) && NulFree(k'.track) {
        UnambiguousByTrack(k, k');
      } else {
        UnambiguousByRenderer(k, k');
      }
    }
  }

  lemma UnambiguousByTrack(k: Key, k': Key)
    requires ValidKey(k) && ValidKey(k') && NulFree(k.track) && NulFree(k'.track)
    requires Preimage(k) == Preimage(k')
    ensures k == k'
  {
    var v, v' := BigEndian(k.rendererVersion, 4), BigEndian(k'.rendererVersion, 4);
    var tail, tail' := k.renderer + ZERO + v, k'.renderer + ZERO + v';
    PreimageParts(k);
    PreimageParts(k');
    SameLength(PREFIX + ZERO, k.track + ZERO + (Middle(k) + tail), PREFIX + ZERO, k'.track + ZERO + (Middle(k') + tail'));
    FirstZero(k.track, Middle(k) + tail, k'.track, Middle(k') + tail');
    SameLength(Middle(k), tail, Middle(k'), tail');
    SameLength(k.renderer + ZERO, v, k'.renderer + ZERO, v');
    SameLength(k.renderer, ZERO, k'.renderer, ZERO);
    NumbersAgree(k, k');
  }

  lemma UnambiguousByRenderer(k: Key, k': Key)
    requires ValidKey(k) && ValidKey(k') && NulFree(k.renderer) && NulFree(k'.renderer)
    requires Preimage(k) == Preimage(k')
    ensures k == k'
  {
    var v, v' := ZERO + BigEndian(k.rendererVersion, 4), ZERO + BigEndian(k'.rendererVersion, 4);
    var m, m' := Middle(k)[..7], Middle(k')[..7];
    var head, head' := k.track + ZERO + m, k'.track + ZERO + m';
    PreimageParts(k);
    PreimageParts(k');
    SameLength(PREFIX + ZERO, (head + ZERO + k.renderer) + v, PREFIX + ZERO, (head' + ZERO + k'.renderer) + v');
    SameLength(head + ZERO + k.renderer, v, head' + ZERO + k'.renderer, v');
    LastZero(head, k.renderer, head', k'.renderer);
    SameLength(k.track + ZERO, m, k'.track + ZERO, m');
    SameLength(k.track, ZERO, k'.track, ZERO);
    SameLength(ZERO, BigEndian(k.rendererVersion, 4), ZERO, BigEndian(k'.rendererVersion, 4));
    NumbersAgree(k, k');
  }

  // ---- Which keys clash ----

  /** What stands between the prefix and the renderer's version. */
  function Body(key: Key): seq<Byte> {
    key.track + ZERO + Middle(key) + key.renderer
  }

  lemma BodiesAgree(k: Key, k': Key)
    requires ValidKey(k) && ValidKey(k')
    ensures Preimage(k) == Preimage(k') <==> Body(k) == Body(k') && k.rendererVersion == k'.rendererVersion
  {
    var v, v' := ZERO + BigEndian(k.rendererVersion, 4), ZERO + BigEndian(k'.rendererVersion, 4);
    PreimageIsBody(k);
    PreimageIsBody(k');
    if Preimage(k) == Preimage(k') {
      SameLength(PREFIX + ZERO, Body(k) + v, PREFIX + ZERO, Body(k') + v');
      SameLength(Body(k), v, Body(k'), v');
      SameLength(ZERO, BigEndian(k.rendererVersion, 4), ZERO, BigEndian(k'.rendererVersion, 4));
      VersionsAgree(k.rendererVersion, k'.rendererVersion);
    }
  }

  lemma PreimageIsBody(key: Key)
    ensures Preimage(key) == PREFIX + ZERO + (Body(key) + (ZERO + BigEndian(key.rendererVersion, 4)))
  {
  }

  lemma VersionsAgree(a: nat, b: nat)
    requires a < 0x1_0000_0000 && b < 0x1_0000_0000 && BigEndian(a, 4) == BigEndian(b, 4)
    ensures a == b
  {
    assert Pow256(2) == 256 * Pow256(1) && Pow256(3) == 256 * Pow256(2) && Pow256(4) == 256 * Pow256(3);
    BigEndianIsInjective(a, b, 4);
  }

  /** The longer track holds the shorter one and all that follows it up to some
      place in its renderer, which goes on as the other key does. The fields in
      between may share the zero byte that ends the one and begins the other. */
  ghost predicate Swallows(k: Key, k': Key) {
    || (k'.track == k.track + ZERO + Middle(k)[..7] && k.renderer == Middle(k') + k'.renderer)
    || exists x :: k'.track == k.track + ZERO + Middle(k) + x && k.renderer == x + ZERO + Middle(k') + k'.renderer
  }

  lemma SwallowingAgrees(k: Key, k': Key)
    requires Swallows(k, k')
    ensures Body(k) == Body(k')
  {
    assert Middle(k) == Middle(k)[..7] + ZERO;
    if x :| k'.track == k.track + ZERO + Middle(k) + x && k.renderer == x + ZERO + Middle(k') + k'.renderer {
      assert k.track + ZERO + Middle(k) + (x + ZERO + Middle(k') + k'.renderer)
          == (k.track + ZERO + Middle(k) + x) + ZERO + Middle(k') + k'.renderer;
    }
  }

  lemma AgreeingSwallows(k: Key, k': Key)
    requires Body(k) == Body(k') && |k.track| < |k'.track|
    ensures Swallows(k, k')
  {
    FieldsOf(k, Body(k));
    FieldsOf(k', Body(k));
    SplitSwallows(k, k', Body(k));
  }

  /** Two ways to split `s` into fields. */
  lemma SplitSwallows(k: Key, k': Key, s: seq<Byte>)
    ensures |k.track| < |k'.track| && FieldsAt(k, s, |k.track|) && FieldsAt(k', s, |k'.track|) ==> Swallows(k, k')
  {
    var a, a' := |k.track|, |k'.track|;
    if a < a' && FieldsAt(k, s, a) && FieldsAt(k', s, a') {
      if a' < a + 9 {
        assert a' == a + 8;
        SharesAZero(k, k', s, a, a');
      } else {
        var x := SwallowsWhole(k, k', s, a, a');
      }
    }
  }

  /** The fields of `key` lie in `s` with their middle at `a`; among its first bytes are two zeros. */
  ghost predicate FieldsAt(key: Key, s: seq<Byte>, a: nat) {
    && |s| >= a + 9 && s[..a] == key.track && s[a..a + 9] == ZERO + Middle(key) && s[a + 9..] == key.renderer
    && s[a] == 0 && s[a + 3] == 0 && s[a + 4] != 0 && s[a + 5] != 0 && s[a + 6] != 0 && s[a + 7] != 0
  }

  lemma SharesAZero(k: Key, k': Key, s: seq<Byte>, a: nat, a': nat)
    requires a + 8 == a' && a' + 9 <= |s|
    requires s[..a] == k.track && s[a..a + 9] == ZERO + Middle(k) && s[a + 9..] == k.renderer
    requires s[..a'] == k'.track && s[a'..a' + 9] == ZERO + Middle(k') && s[a' + 9..] == k'.renderer
    ensures k'.track == k.track + ZERO + Middle(k)[..7] && k.renderer == Middle(k') + k'.renderer
  {
    assert s[..a + 8] == s[..a] + s[a..a + 8];
    assert s[a..a + 8] == s[a..a + 9][..8] == ZERO + Middle(k)[..7];
    assert s[a + 9..] == s[a'..a' + 9][1..] + s[a' + 9..];
  }

  lemma SwallowsWhole(k: Key, k': Key, s: seq<Byte>, a: nat, a': nat) returns (x: seq<Byte>)
    requires a + 9 <= a' && a' + 9 <= |s|
    requires s[..a] == k.track && s[a..a + 9] == ZERO + Middle(k) && s[a + 9..] == k.renderer
    requires s[..a'] == k'.track && s[a'..a' + 9] == ZERO + Middle(k') && s[a' + 9..] == k'.renderer
    ensures k'.track == k.track + ZERO + Middle(k) + x && k.renderer == x + ZERO + Middle(k') + k'.renderer
  {
    x := s[a + 9..a'];
    Parts(s, a, a + 9, a');
    Regrouped(k.track, ZERO, Middle(k), x);
    assert s[a + 9..] == x + s[a'..a' + 9] + s[a' + 9..];
    Regrouped(x, ZERO, Middle(k'), k'.renderer);
  }

  lemma Regrouped<T>(a: seq<T>, b: seq<T>, c: seq<T>, d: seq<T>)
    ensures a + (b + c) + d == a + b + c + d
  {
  }

  lemma Parts<T>(s: seq<T>, a: nat, b: nat, c: nat)
    requires a <= b <= c <= |s|
    ensures s[..c] == s[..a] + s[a..b] + s[b..c]
  {
  }

  /** Where the bytes of each field are. */
  lemma FieldsOf(key: Key, s: seq<Byte>)
    requires s == Body(key)
    ensures FieldsAt(key, s, |key.track|)
  {
    var a, between := |key.track|, ZERO + Middle(key);
    assert s == key.track + between + key.renderer;
    assert s[a..a + 9] == between;
    assert between[3] == 0 && between[4..8] == Token(key.codec);
    assert forall i :: 4 <= i < 8 ==> between[i] == Token(key.codec)[i - 4];
    assert forall i :: 0 <= i < 9 ==> s[a + i] == between[i];
  }

  /** Two keys share a preimage if and only if they are equal, or of one version and
      one swallows the other. */
  lemma PreimagesAgreeExactly(k: Key, k': Key)
    requires ValidKey(k) && ValidKey(k')
    ensures Preimage(k) == Preimage(k')
       <==> k == k' || (k.rendererVersion == k'.rendererVersion && (Swallows(k, k') || Swallows(k', k)))
  {
    BodiesAgree(k, k');
    if Swallows(k, k') {
      SwallowingAgrees(k, k');
    }
    if Swallows(k', k) {
      SwallowingAgrees(k', k);
    }
    if Preimage(k) == Preimage(k') {
      if |k.track| < |k'.track| {
        AgreeingSwallows(k, k');
      } else if |k'.track| < |k.track| {
        AgreeingSwallows(k', k);
      } else {
        SameTracks(k, k');
      }
    }
  }

  lemma SameTracks(k: Key, k': Key)
    requires ValidKey(k) && ValidKey(k') && Body(k) == Body(k') && |k.track| == |k'.track|
    requires k.rendererVersion == k'.rendererVersion
    ensures k == k'
  {
    FieldsOf(k, Body(k));
    FieldsOf(k', Body(k));
    SameLength(ZERO, Middle(k), ZERO, Middle(k'));
    NumbersAgree(k, k');
  }

  /** Every track and every renderer has such a pair: put what stands between the
      fields into the one's track and the other's renderer. */
  lemma PreimageIsAmbiguous(track: seq<Byte>, renderer: seq<Byte>) returns (k: Key, k': Key)
    ensures ValidKey(k) && ValidKey(k') && k != k' && Preimage(k) == Preimage(k')
    ensures k.track == track && k'.renderer == renderer
  {
    var between := Middle(Key([], 0, Flac, [], 0));
    k := Key(track, 0, Flac, ZERO + between + renderer, 0);
    k' := Key(track + ZERO + between, 0, Flac, renderer, 0);
    assert Middle(k) == between == Middle(k');
    assert k'.track == k.track + ZERO + Middle(k) + [] && k.renderer == [] + ZERO + Middle(k') + k'.renderer;
    assert |k.track| < |k'.track|;
    PreimagesAgreeExactly(k, k');
  }

  // ---- Paths ----

  function Digit(n: nat): char
    requires n < 16
  {
    "0123456789abcdef"[n]
  }

  /** Two lower-case hexadecimal digits a byte. */
  function Hex(bytes: seq<Byte>): (text: string)
    ensures |text| == 2 * |bytes|
  {
    if bytes == [] then "" else [Digit(bytes[0] / 16), Digit(bytes[0] % 16)] + Hex(bytes[1..])
  }

  lemma {:induction false} HexIsInjective(a: seq<Byte>, b: seq<Byte>)
    requires |a| == |b| && Hex(a) == Hex(b)
    ensures a == b
  {
    if a == [] {
    } else {
      DigitsAgree(a[0] / 16, b[0] / 16);
      DigitsAgree(a[0] % 16, b[0] % 16);
      assert Hex(a)[2..] == Hex(a[1..]) && Hex(b)[2..] == Hex(b[1..]);
      assert Hex(a)[0] == Digit(a[0] / 16) && Hex(a)[1] == Digit(a[0] % 16);
      assert Hex(b)[0] == Digit(b[0] / 16) && Hex(b)[1] == Digit(b[0] % 16);
      HexIsInjective(a[1..], b[1..]);
    }
  }

  lemma DigitsAgree(m: nat, n: nat)
    requires m < 16 && n < 16
    ensures Digit(m) == Digit(n) ==> m == n
  {
  }

  /** `<root>/<aa>/<digest>.<extension>`, for a digest of sixteen bytes. */
  function PathFor(root: string, md5: seq<Byte> -> seq<Byte>, key: Key): string
    requires |md5(Preimage(key))| == 16
  {
    var digest := Hex(md5(Preimage(key)));
    root + "/" + digest[..2] + "/" + digest + "." + "flac"
  }

  /** Distinct keys have distinct paths, as far as the digest tells their
      preimages apart. */
  lemma DistinctKeysHaveDistinctPaths(root: string, md5: seq<Byte> -> seq<Byte>, k: Key, k': Key)
    requires ValidKey(k) && ValidKey(k') && NulFree(k.renderer) && NulFree(k'.renderer)
    requires |md5(Preimage(k))| == |md5(Preimage(k'))| == 16
    requires md5(Preimage(k)) == md5(Preimage(k')) ==> Preimage(k) == Preimage(k')
    ensures PathFor(root, md5, k) == PathFor(root, md5, k') ==> k == k'
  {
    var d, d' := Hex(md5(Preimage(k))), Hex(md5(Preimage(k')));
    if PathFor(root, md5, k) == PathFor(root, md5, k') {
      var front, front' := root + "/" + d[..2] + "/", root + "/" + d'[..2] + "/";
      SameLength(front + d + ".", "flac", front' + d' + ".", "flac");
      SameLength(front + d, ".", front' + d', ".");
      SameLength(front, d, front', d');
      HexIsInjective(md5(Preimage(k)), md5(Preimage(k')));
      PreimageIsUnambiguous(k, k');
    }
  }
}
