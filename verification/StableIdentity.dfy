/**
 Length-prefixed identities: `graphID` and the ids built on it
 (internal/architecturecatalog/identity.go) and `ChecksumFiles`
 (internal/agentcontrol/catalog.go).

 A digest is a function of the bytes that are streamed into it, so the question is what
 those bytes determine.  Characters stand for bytes, and the hash itself is an arbitrary
 function: two identities that coincide on different inputs exhibit a collision of it.
 */
module StableIdentity {
  import opened Ordering

  // ---------- length prefixes ----------

  function Pow256(w: nat): (p: nat)
    ensures p >= 1
  {
    if w == 0 then 1 else 256 * Pow256(w - 1)
  }

  /** Big-endian, `w` bytes; a longer number loses its high bytes, as a Go conversion does. */
  function Header(n: nat, w: nat): string {
    if w == 0 then "" else Header(n / 256, w - 1) + [(n % 256) as char]
  }

  lemma {:induction false} HeaderLength(n: nat, w: nat)
    ensures |Header(n, w)| == w
  {
    if w > 0 {
      HeaderLength(n / 256, w - 1);
    }
  }

  lemma {:induction false} HeaderIsInjective(n: nat, m: nat, w: nat)
    requires n < Pow256(w) && m < Pow256(w) && Header(n, w) == Header(m, w)
    ensures n == m
  {
    if w > 0 {
      HeaderLength(n / 256, w - 1);
      HeaderLength(m / 256, w - 1);
      assert Header(n, w)[..w - 1] == Header(n / 256, w - 1);
      assert Header(m, w)[..w - 1] == Header(m / 256, w - 1);
      assert Header(n, w)[w - 1] == Header(m, w)[w - 1];
      HeaderIsInjective(n / 256, m / 256, w - 1);
    }
  }

  lemma {:induction false} HeaderWraps(n: nat, w: nat)
    ensures Header(n + Pow256(w), w) == Header(n, w)
  {
    if w > 0 {
      assert (n + Pow256(w)) / 256 == n / 256 + Pow256(w - 1) && (n + Pow256(w)) % 256 == n % 256;
      HeaderWraps(n / 256, w - 1);
    }
  }

  function Frame(value: string, w: nat): string {
    Header(|value|, w) + value
  }

  function Frames(values: seq<string>, w: nat): string {
    if values == [] then "" else Frame(values[0], w) + Frames(values[1..], w)
  }

  ghost predicate Fit(values: seq<string>, w: nat) {
    forall v | v in values :: |v| < Pow256(w)
  }

  lemma {:induction false} FrameHead(value: string, rest: string, w: nat)
    ensures var s := Frame(value, w) + rest;
            && |s| >= w && s[..w] == Header(|value|, w)
            && |s| >= w + |value| && s[w..w + |value|] == value && s[w + |value|..] == rest
  {
    HeaderLength(|value|, w);
  }

  /** The framed bytes determine the list of values. */
  lemma {:induction false} FramesAreInjective(a: seq<string>, b: seq<string>, w: nat)
    requires w > 0 && Fit(a, w) && Fit(b, w) && Frames(a, w) == Frames(b, w)
    ensures a == b
  {
    if a != [] && b != [] {
      var s := Frames(a, w);
      FrameHead(a[0], Frames(a[1..], w), w);
      FrameHead(b[0], Frames(b[1..], w), w);
      assert a[0] in a && b[0] in b;
      HeaderIsInjective(|a[0]|, |b[0]|, w);
      assert a[0] == b[0];
      FramesAreInjective(a[1..], b[1..], w);
      assert a == [a[0]] + a[1..] && b == [b[0]] + b[1..];
    }
  }

  lemma {:induction false} FramesOfLonger(values: seq<string>, v: string, w: nat)
    ensures Frames(values + [v], w) == Frames(values, w) + Frame(v, w)
  {
    if values == [] {
      assert [v][1..] == [] && values + [v] == [v];
      assert Frames([v], w) == Frame(v, w) + "";
    } else {
      assert (values + [v])[1..] == values[1..] + [v];
      FramesOfLonger(values[1..], v, w);
      assert Frame(values[0], w) + (Frames(values[1..], w) + Frame(v, w))
          == Frame(values[0], w) + Frames(values[1..], w) + Frame(v, w);
    }
  }

  // ---------- graph ids ----------

  const GRAPH_DOMAIN := "course-dev-orchestrator/architecture-graph.v1"

  function GraphIdBytes(values: seq<string>): string {
    GRAPH_DOMAIN + "\0" + Frames(values, 4)
  }

  /** What an incremental hash has been given. */
  class DigestStream {
    var written: string

    constructor ()
      ensures written == ""
    {
      written := "";
    }

    method Write(bytes: string)
      modifies this
      ensures written == old(written) + bytes
    {
      written := written + bytes;
    }

    /** The loop of `graphID` over its values. */
    method WriteFramed(values: seq<string>, w: nat)
      modifies this
      ensures written == old(written) + Frames(values, w)
    {
      for i := 0 to |values|
        invariant written == old(written) + Frames(values[..i], w)
      {
        FramesOfLonger(values[..i], values[i], w);
        assert values[..i + 1] == values[..i] + [values[i]];
        Write(Header(|values[i]|, w));
        Write(values[i]);
        FramesAppend(old(written), Frames(values[..i], w), values[i], w);
      }
      assert values[..|values|] == values;
    }
  }

  lemma {:induction false} FramesAppend(start: string, before: string, value: string, w: nat)
    ensures start + before + Header(|value|, w) + value == start + (before + Frame(value, w))
  {
  }

  /** `graphID`, without the final digest. */
  method StreamGraphId(values: seq<string>) returns (bytes: string)
    ensures bytes == GraphIdBytes(values)
  {
    var stream := new DigestStream();
    stream.Write(GRAPH_DOMAIN);
    stream.Write("\0");
    stream.WriteFramed(values, 4);
    bytes := stream.written;
  }

  lemma GraphIdBytesAreInjective(a: seq<string>, b: seq<string>)
    requires Fit(a, 4) && Fit(b, 4) && GraphIdBytes(a) == GraphIdBytes(b)
    ensures a == b
  {
    var head := GRAPH_DOMAIN + "\0";
    assert GraphIdBytes(a)[|head|..] == Frames(a, 4) && GraphIdBytes(b)[|head|..] == Frames(b, 4);
    FramesAreInjective(a, b, 4);
  }

  function Zeros(n: nat): string {
    seq(n, _ => '\0')
  }

  lemma {:induction false} EmptyFrames(k: nat)
    ensures Frames(seq(k, _ => ""), 4) == Zeros(4 * k)
  {
    if k > 0 {
      HeaderOfZero(4);
      assert seq(k, _ => "")[1..] == seq(k - 1, _ => "");
      EmptyFrames(k - 1);
      ZerosAppend(4, 4 * (k - 1));
    }
  }

  lemma ZerosAppend(m: nat, n: nat)
    ensures Zeros(m) + "" + Zeros(n) == Zeros(m + n)
  {
  }

  lemma {:induction false} HeaderOfZero(w: nat)
    ensures Header(0, w) == Zeros(w)
  {
    if w > 0 {
      HeaderOfZero(w - 1);
      assert Zeros(w) == Zeros(w - 1) + ['\0'];
    }
  }

  /** The bound on the length of a value is needed: a value of 2^32 zero bytes streams the same
      bytes as a list of 2^30 + 1 empty values. */
  lemma LongValueIsAmbiguous(value: string, list: seq<string>)
    requires value == Zeros(0x1_0000_0000) && list == seq(0x4000_0001, _ => "")
    ensures GraphIdBytes([value]) == GraphIdBytes(list) && [value] != list
  {
    EmptyFrames(0x4000_0001);
    assert Pow256(4) == 0x1_0000_0000;
    HeaderWraps(0, 4);
    HeaderOfZero(4);
    assert Frames([value], 4) == Frame(value, 4) + Frames([value][1..], 4);
    assert Frames([value], 4) == Zeros(4) + value;
    assert Zeros(4) + Zeros(0x1_0000_0000) == Zeros(0x1_0000_0004);
  }

  predicate IsSpace(c: char) {
    '\t' <= c <= '\r'
        || c in {' ', '\U{85}', '\U{A0}', '\U{1680}', '\U{2028}', '\U{2029}', '\U{202F}', '\U{205F}', '\U{3000}'}
    || '\U{2000}' <= c <= '\U{200A}'
  }

  function TrimLeft(s: string): string {
    if s != "" && IsSpace(s[0]) then TrimLeft(s[1..]) else s
  }

  function TrimRight(s: string): string {
    if s != "" && IsSpace(s[|s| - 1]) then TrimRight(s[..|s| - 1]) else s
  }

  /** `strings.TrimSpace`. */
  function TrimSpace(s: string): string {
    TrimRight(TrimLeft(s))
  }

  type Hash = string -> string

  function GraphId(hash: Hash, prefix: string, values: seq<string>): string {
    prefix + hash(GraphIdBytes(values))
  }

  /** Two different byte strings with the same digest. */
  ghost predicate Collide(hash: Hash, x: string, y: string) {
    x != y && hash(x) == hash(y)
  }

  /** Equal ids mean equal values, or the very bytes hashed for the two lists collide. */
  lemma GraphIdIsInjective(hash: Hash, a: seq<string>, b: seq<string>, prefix: string)
    requires Fit(a, 4) && Fit(b, 4) && GraphId(hash, prefix, a) == GraphId(hash, prefix, b)
    ensures a == b || Collide(hash, GraphIdBytes(a), GraphIdBytes(b))
  {
    assert GraphId(hash, prefix, a)[|prefix|..] == hash(GraphIdBytes(a));
    assert GraphId(hash, prefix, b)[|prefix|..] == hash(GraphIdBytes(b));
    if GraphIdBytes(a) == GraphIdBytes(b) {
      GraphIdBytesAreInjective(a, b);
    }
  }

  /** The "repository" manifest id stands for an uncovered project. */
  function ReferenceValues(sourceIdentity: string, manifestId: string): seq<string> {
    [TrimSpace(sourceIdentity), if TrimSpace(manifestId) == "" then "repository" else TrimSpace(manifestId)]
  }

  function StableReferenceId(hash: Hash, sourceIdentity: string, manifestId: string): string {
    if TrimSpace(sourceIdentity) == "" then "" else GraphId(hash, "ref-", ReferenceValues(sourceIdentity, manifestId))
  }

  // ---------- checksums of file trees ----------

  function Flatten(files: map<string, string>, names: seq<string>): (values: seq<string>)
    requires forall n | n in names :: n in files
    ensures |values| == 2 * |names|
    ensures forall i | 0 <= i < |names| :: values[2 * i] == names[i] && values[2 * i + 1] == files[names[i]]
  {
    if names == [] then []
    else
      var last := |names| - 1;
      Flatten(files, names[..last]) + [names[last], files[names[last]]]
  }

  ghost function ChecksumBytes(files: map<string, string>): string {
    Frames(Flatten(files, SortedKeys(files.Keys)), 8)
  }

  ghost predicate FilesFit(files: map<string, string>) {
    forall n | n in files :: |n| < Pow256(8) && |files[n]| < Pow256(8)
  }

  /** The streamed bytes determine the file map: names, contents and which belong together. */
  lemma ChecksumBytesAreInjective(a: map<string, string>, b: map<string, string>)
    requires FilesFit(a) && FilesFit(b) && ChecksumBytes(a) == ChecksumBytes(b)
    ensures a == b
  {
    FlattenFits(a, SortedKeys(a.Keys));
    FlattenFits(b, SortedKeys(b.Keys));
    FramesAreInjective(Flatten(a, SortedKeys(a.Keys)), Flatten(b, SortedKeys(b.Keys)), 8);
    SortedFlattenDetermines(a, b);
  }

  lemma {:induction false} SortedFlattenDetermines(a: map<string, string>, b: map<string, string>)
    requires Flatten(a, SortedKeys(a.Keys)) == Flatten(b, SortedKeys(b.Keys))
    ensures a == b
  {
    var m, n := SortedKeys(a.Keys), SortedKeys(b.Keys);
    FlattenDetermines(a, m, b, n);
    forall k | k in a ensures k in b && a[k] == b[k] {
      assert k in m;
    }
    forall k | k in b ensures k in a {
      assert k in n;
    }
  }

  lemma {:induction false} FlattenDetermines(a: map<string, string>, m: seq<string>, b: map<string, string>,
                                             n: seq<string>)
    requires (forall k | k in m :: k in a) && (forall k | k in n :: k in b)
    requires Flatten(a, m) == Flatten(b, n)
    ensures m == n && forall k | k in m :: a[k] == b[k]
  {
    var v, w := Flatten(a, m), Flatten(b, n);
    assert |m| == |n|;
    forall i | 0 <= i < |m| ensures m[i] == n[i] && a[m[i]] == b[m[i]] {
      assert v[2 * i] == w[2 * i] && v[2 * i + 1] == w[2 * i + 1];
    }
  }

  lemma {:induction false} FlattenFits(files: map<string, string>, names: seq<string>)
    requires FilesFit(files) && forall n | n in names :: n in files
    ensures Fit(Flatten(files, names), 8)
  {
    var v := Flatten(files, names);
    forall x | x in v ensures |x| < Pow256(8) {
      var k :| 0 <= k < |v| && v[k] == x;
      if k % 2 == 0 {
        assert v[2 * (k / 2)] == names[k / 2];
      } else {
        assert v[2 * (k / 2) + 1] == files[names[k / 2]];
      }
    }
  }

  lemma {:induction false} FlattenStep(files: map<string, string>, names: seq<string>, i: nat)
    requires i < |names| && forall n | n in names :: n in files
    ensures Frames(Flatten(files, names[..i + 1]), 8)
         == Frames(Flatten(files, names[..i]), 8) + Frame(names[i], 8) + Frame(files[names[i]], 8)
  {
    var before := Flatten(files, names[..i]);
    assert names[..i + 1][..i] == names[..i];
    assert before + [names[i]] + [files[names[i]]] == before + [names[i], files[names[i]]];
    FramesOfLonger(before, names[i], 8);
    FramesOfLonger(before + [names[i]], files[names[i]], 8);
  }

  lemma {:induction false} FrameParts(before: string, name: string, content: string, w: nat)
    ensures before + Header(|name|, w) + name + Header(|content|, w) + content
                == before + Frame(name, w) + Frame(content, w)
  {
  }

  /** `ChecksumFiles`, without the final digest; the map is met in an arbitrary order. */
  method StreamChecksum(files: map<string, string>) returns (bytes: string)
    ensures bytes == ChecksumBytes(files)
  {
    var stream := new DigestStream();
    var listing := ListKeys(files.Keys);
    var names := SortUnique(listing);
    for i := 0 to |names|
      invariant forall n | n in names[..i] :: n in files
      invariant stream.written == Frames(Flatten(files, names[..i]), 8)
    {
      assert names[i] in names;
      FlattenStep(files, names, i);
      stream.Write(Header(|names[i]|, 8));
      stream.Write(names[i]);
      stream.Write(Header(|files[names[i]]|, 8));
      stream.Write(files[names[i]]);
      FrameParts(Frames(Flatten(files, names[..i]), 8), names[i], files[names[i]], 8);
    }
    assert names[..|names|] == names;
    bytes := stream.written;
  }

  /** Equal checksums mean equal file trees, or the very bytes hashed for the two trees collide. */
  lemma ChecksumIsInjective(hash: Hash, a: map<string, string>, b: map<string, string>)
    requires FilesFit(a) && FilesFit(b) && hash(ChecksumBytes(a)) == hash(ChecksumBytes(b))
    ensures a == b || Collide(hash, ChecksumBytes(a), ChecksumBytes(b))
  {
    if ChecksumBytes(a) == ChecksumBytes(b) {
      ChecksumBytesAreInjective(a, b);
    }
  }
}
