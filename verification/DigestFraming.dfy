/**
  The byte strings that two digests are taken over: the default backup job identifier
  and the name of a claim's journal. Both frame every field with its length, so that
  different inputs never give the same string. The digest itself is not modelled.
 */
module DigestFraming {
  import opened Basics

  type Octet = b: int | 0 <= b < 256
  type Bytes = seq<Octet>

  const U64: nat := 0x1_0000_0000_0000_0000

  /** The `k` low-order bytes of `n`, most significant first. */
  function BigEndian(n: nat, k: nat): (s: Bytes)
    ensures |s| == k
    decreases k
  {
    if k == 0 then [] else BigEndian(n / 256, k - 1) + [(n % 256) as Octet]
  }

  function Power256(k: nat): nat {
    if k == 0 then 1 else 256 * Power256(k - 1)
  }

  /** Byte `i` of `k` is the digit of weight 256 to the power `k - 1 - i`. */
  lemma {:induction false} BigEndianAt(n: nat, k: nat, i: nat)
    requires i < k
    ensures Power256(k - 1 - i) > 0 && BigEndian(n, k)[i] == (n / Power256(k - 1 - i)) % 256
    decreases k
  {
    PowerIsPositive(k - 1 - i);
    if i == k - 1 {
      assert Power256(0) == 1;
    } else {
      PowerIsPositive(k - 2 - i);
      BigEndianAt(n / 256, k - 1, i);
      var p := Power256(k - 2 - i);
      assert Power256(k - 1 - i) == 256 * p;
      DivideTwice(n, p);
    }
  }

  lemma {:induction false} PowerIsPositive(k: nat)
    ensures Power256(k) > 0
  {
    if k > 0 {
      PowerIsPositive(k - 1);
    }
  }

  lemma DivideTwice(n: nat, p: nat)
    requires p > 0
    ensures n / 256 / p == n / (256 * p)
  {
    var a, b := n / 256, n % 256;
    var q, m := a / p, a % p;
    assert n == 256 * (p * q + m) + b;
    assert 256 * (p * q + m) + b == (256 * p) * q + (256 * m + b);
    assert 256 * m + b < 256 * p;
    QuotientIs(n, 256 * p, q, 256 * m + b);
  }

  lemma QuotientIs(n: nat, d: nat, q: nat, m: nat)
    requires d > 0 && n == d * q + m && m < d
    ensures n / d == q
  {
    var k := n / d;
    assert n == d * k + n % d;
    assert k < q ==> d * (k + 1) <= d * q;
    assert q < k ==> d * (q + 1) <= d * k;
  }

  lemma {:induction false} BigEndianIsInjective(m: nat, n: nat, k: nat)
    requires m < Power256(k) && n < Power256(k)
    requires BigEndian(m, k) == BigEndian(n, k)
    ensures m == n
    decreases k
  {
    if k > 0 {
      var a, b := BigEndian(m / 256, k - 1), BigEndian(n / 256, k - 1);
      assert BigEndian(m, k)[..k - 1] == a && BigEndian(n, k)[..k - 1] == b;
      assert BigEndian(m, k)[k - 1] == (m % 256) as Octet && BigEndian(n, k)[k - 1] == (n % 256) as Octet;
      BigEndianIsInjective(m / 256, n / 256, k - 1);
    }
  }

  /** `(length as u64).to_be_bytes()`. */
  function LengthBytes(n: nat): (s: Bytes)
    ensures |s| == 8
  {
    BigEndian(n, 8)
  }

  lemma LengthBytesAreInjective(m: nat, n: nat)
    requires m < U64 && n < U64 && LengthBytes(m) == LengthBytes(n)
    ensures m == n
  {
    assert Power256(4) == 0x1_0000_0000;
    assert Power256(8) == 256 * 256 * 256 * 256 * Power256(4);
    BigEndianIsInjective(m, n, 8);
  }

  /** A field preceded by its length. */
  function Frame(field: Bytes): Bytes {
    LengthBytes(|field|) + field
  }

  function Frames(fields: seq<Bytes>): Bytes {
    if fields == [] then [] else Frame(fields[0]) + Frames(fields[1..])
  }

  predicate Short(field: Bytes) {
    |field| < U64
  }

  /** A framed field can be read back from the front of any string. */
  lemma FrameIsPrefixFree(f: Bytes, g: Bytes, x: Bytes, y: Bytes)
    requires Short(f) && Short(g) && Frame(f) + x == Frame(g) + y
    ensures f == g && x == y
  {
    hide LengthBytes;
    var s := Frame(f) + x;
    assert s[..8] == LengthBytes(|f|);
    assert (Frame(g) + y)[..8] == LengthBytes(|g|);
    LengthBytesAreInjective(|f|, |g|);
    var n := 8 + |f|;
    assert s[8..n] == f && s[n..] == x;
    assert (Frame(g) + y)[8..n] == g && (Frame(g) + y)[n..] == y;
  }

  lemma {:induction false} FramesArePrefixFree(fs: seq<Bytes>, gs: seq<Bytes>, x: Bytes, y: Bytes)
    requires |fs| == |gs|
    requires forall i :: 0 <= i < |fs| ==> Short(fs[i]) && Short(gs[i])
    requires Frames(fs) + x == Frames(gs) + y
    ensures fs == gs && x == y
    decreases |fs|
  {
    hide Frame;
    if fs != [] {
      assert Frames(fs) + x == Frame(fs[0]) + (Frames(fs[1..]) + x);
      assert Frames(gs) + y == Frame(gs[0]) + (Frames(gs[1..]) + y);
      FrameIsPrefixFree(fs[0], gs[0], Frames(fs[1..]) + x, Frames(gs[1..]) + y);
      FramesArePrefixFree(fs[1..], gs[1..], x, y);
      assert fs == [fs[0]] + fs[1..] && gs == [gs[0]] + gs[1..];
    } else {
      assert Frames(fs) + x == x && Frames(gs) + y == y;
    }
  }

  // ---------------------------------------------------------- backup job ids

  datatype Job = Job(source: Bytes, name: Bytes, backupId: Option<Bytes>, snapshotId: Bytes, providers: seq<Bytes>)

  function OrEmpty(id: Option<Bytes>): Bytes {
    if id.Some? then id.value else []
  }

  predicate Representable(j: Job) {
    && Short(j.source) && Short(j.name) && Short(OrEmpty(j.backupId)) && Short(j.snapshotId)
    && |j.providers| < U64
    && forall i :: 0 <= i < |j.providers| ==> Short(j.providers[i])
  }

  function Fixed(j: Job): seq<Bytes> {
    [j.source, j.name, OrEmpty(j.backupId), j.snapshotId]
  }

  /** What the digest of a job identifier is fed. */
  function JobPreimage(domain: Bytes, j: Job): Bytes {
    domain + (Frames(Fixed(j)) + (LengthBytes(|j.providers|) + Frames(j.providers)))
  }

  lemma Append(fields: seq<Bytes>, f: Bytes)
    ensures Frames(fields + [f]) == Frames(fields) + Frame(f)
  {
    hide Frame;
    if fields == [] {
      assert Frames([f]) == Frame(f) + Frames([]);
    } else {
      Append(fields[1..], f);
      assert (fields + [f])[1..] == fields[1..] + [f];
    }
  }

  /** The loops of `default_backup_job_id`, feeding one field after another. */
  method FeedJob(domain: Bytes, j: Job) returns (fed: Bytes)
    ensures fed == JobPreimage(domain, j)
    ensures IsLaidOut(fed, domain, j, if j.backupId.Some? then j.backupId.value else [])
  {
    JobLayout(domain, j);
    hide Frame, LengthBytes, IsLaidOut;
    fed := domain;
    var fixed := Fixed(j);
    for i := 0 to |fixed|
      invariant fed == domain + Frames(fixed[..i])
    {
      Append(fixed[..i], fixed[i]);
      assert fixed[..i + 1] == fixed[..i] + [fixed[i]];
      fed := fed + Frame(fixed[i]);
    }
    assert fixed[..|fixed|] == fixed;
    fed := fed + LengthBytes(|j.providers|);
    ghost var head := fed;
    for i := 0 to |j.providers|
      invariant fed == head + Frames(j.providers[..i])
    {
      Append(j.providers[..i], j.providers[i]);
      assert j.providers[..i + 1] == j.providers[..i] + [j.providers[i]];
      fed := fed + Frame(j.providers[i]);
    }
    assert j.providers[..|j.providers|] == j.providers;
  }

  /** A field with its length before it stands at `at`. */
  ghost predicate FieldAt(s: Bytes, at: nat, field: Bytes) {
    && at + 8 + |field| <= |s|
    && s[at..at + 8] == LengthBytes(|field|) && s[at + 8..at + 8 + |field|] == field
  }

  /** How much room the first `n` fields take. */
  function Room(fields: seq<Bytes>, n: nat): nat
    requires n <= |fields|
  {
    if n == 0 then 0 else Room(fields, n - 1) + 8 + |fields[n - 1]|
  }

  lemma FrameRoom(field: Bytes)
    ensures |Frame(field)| == 8 + |field|
  {
    hide LengthBytes;
  }

  lemma NoFrames(fields: seq<Bytes>)
    ensures fields == [] ==> Frames(fields) == []
  {
    hide Frame;
  }

  lemma {:induction false} FramesRoom(fields: seq<Bytes>, n: nat)
    requires n <= |fields|
    ensures |Frames(fields[..n])| == Room(fields, n)
  {
    hide Frames, Frame;
    if n > 0 {
      FramesRoom(fields, n - 1);
      assert fields[..n] == fields[..n - 1] + [fields[n - 1]];
      Append(fields[..n - 1], fields[n - 1]);
      FrameRoom(fields[n - 1]);
    } else {
      NoFrames(fields[..n]);
    }
  }

  lemma {:induction false} FramesSplit(fields: seq<Bytes>, i: nat)
    requires i < |fields|
    ensures Frames(fields) == Frames(fields[..i]) + (Frame(fields[i]) + Frames(fields[i + 1..]))
  {
    hide Frame;
    if i > 0 {
      FramesSplit(fields[1..], i - 1);
      assert fields[1..][..i - 1] == fields[..i][1..] && fields[1..][i - 1] == fields[i] && fields[1..][i..] == fields[i + 1..];
    } else {
      assert fields[..0] == [];
    }
  }

  lemma Regroup(a: Bytes, b: Bytes, c: Bytes, d: Bytes, e: Bytes)
    ensures a + (b + (c + d)) + e == a + b + c + (d + e)
  {
  }

  lemma FrameInPlace(before: Bytes, field: Bytes, after: Bytes)
    ensures FieldAt(before + Frame(field) + after, |before|, field)
  {
    hide LengthBytes;
  }

  lemma FieldInPlace(before: Bytes, fields: seq<Bytes>, after: Bytes, i: nat)
    requires i < |fields|
    ensures FieldAt(before + Frames(fields) + after, |before| + Room(fields, i), fields[i])
  {
    hide *;
    FramesRoom(fields, i);
    FramesSplit(fields, i);
    FrameInPlace(before + Frames(fields[..i]), fields[i], Frames(fields[i + 1..]) + after);
    Regroup(before, Frames(fields[..i]), Frame(fields[i]), Frames(fields[i + 1..]), after);
  }

  /** Where everything is in what the digest of a job identifier is fed. */
  ghost predicate IsLaidOut(fed: Bytes, domain: Bytes, j: Job, backup: Bytes) {
    var a := |domain|;
    var b := a + 8 + |j.source|;
    var c := b + 8 + |j.name|;
    var d := c + 8 + |backup|;
    var e := d + 8 + |j.snapshotId|;
    && |fed| == e + 8 + Room(j.providers, |j.providers|)
    && fed[..a] == domain
    && FieldAt(fed, a, j.source) && FieldAt(fed, b, j.name) && FieldAt(fed, c, backup) && FieldAt(fed, d, j.snapshotId)
    && fed[e..e + 8] == LengthBytes(|j.providers|)
    && forall i :: 0 <= i < |j.providers| ==> FieldAt(fed, e + 8 + Room(j.providers, i), j.providers[i])
  }

  lemma JobLayout(domain: Bytes, j: Job)
    ensures IsLaidOut(JobPreimage(domain, j), domain, j, if j.backupId.Some? then j.backupId.value else [])
  {
    hide Frames, LengthBytes, FieldAt, Room;
    var fixed, fed, count, list := Fixed(j), JobPreimage(domain, j), LengthBytes(|j.providers|), Frames(j.providers);
    assert fed == domain + Frames(fixed) + (count + list);
    assert fed == domain + Frames(fixed) + count + list + [];
    FixedRoom(j);
    FramesRoom(fixed, 4);
    FramesRoom(j.providers, |j.providers|);
    assert fixed[..4] == fixed && j.providers[..|j.providers|] == j.providers;
    FieldInPlace(domain, fixed, count + list, 0);
    FieldInPlace(domain, fixed, count + list, 1);
    FieldInPlace(domain, fixed, count + list, 2);
    FieldInPlace(domain, fixed, count + list, 3);
    forall i | 0 <= i < |j.providers|
      ensures FieldAt(fed, |domain + Frames(fixed) + count| + Room(j.providers, i), j.providers[i])
    {
      FieldInPlace(domain + Frames(fixed) + count, j.providers, [], i);
    }
  }

  lemma FixedRoom(j: Job)
    ensures var f := Fixed(j);
            && Room(f, 0) == 0 && Room(f, 1) == 8 + |f[0]| && Room(f, 2) == Room(f, 1) + 8 + |f[1]|
            && Room(f, 3) == Room(f, 2) + 8 + |f[2]| && Room(f, 4) == Room(f, 3) + 8 + |f[3]|
  {
  }

  /** A missing backup identifier counts as the empty one; nothing else is identified. */
  predicate SameJob(a: Job, b: Job) {
    && a.source == b.source && a.name == b.name && a.snapshotId == b.snapshotId && a.providers == b.providers
    && OrEmpty(a.backupId) == OrEmpty(b.backupId)
  }

  /** Two jobs feed the digest the same bytes if and only if they are the same job. */
  lemma JobPreimageIsInjective(domain: Bytes, a: Job, b: Job)
    requires Representable(a) && Representable(b)
    ensures JobPreimage(domain, a) == JobPreimage(domain, b) <==> SameJob(a, b)
  {
    if JobPreimage(domain, a) == JobPreimage(domain, b) {
      JobsOfEqualPreimage(domain, a, b);
    }
  }

  lemma JobsOfEqualPreimage(domain: Bytes, a: Job, b: Job)
    requires Representable(a) && Representable(b)
    requires JobPreimage(domain, a) == JobPreimage(domain, b)
    ensures SameJob(a, b)
  {
    hide Frames, LengthBytes;
    var x := LengthBytes(|a.providers|) + Frames(a.providers);
    var y := LengthBytes(|b.providers|) + Frames(b.providers);
    assert JobPreimage(domain, a)[|domain|..] == Frames(Fixed(a)) + x;
    assert JobPreimage(domain, b)[|domain|..] == Frames(Fixed(b)) + y;
    FramesArePrefixFree(Fixed(a), Fixed(b), x, y);
    assert Fixed(a)[0] == Fixed(b)[0] && Fixed(a)[1] == Fixed(b)[1] && Fixed(a)[2] == Fixed(b)[2] && Fixed(a)[3] == Fixed(b)[3];
    assert x[..8] == LengthBytes(|a.providers|) && y[..8] == LengthBytes(|b.providers|);
    LengthBytesAreInjective(|a.providers|, |b.providers|);
    assert x[8..] == Frames(a.providers) && y[8..] == Frames(b.providers);
    assert Frames(a.providers) + [] == Frames(b.providers) + [];
    FramesArePrefixFree(a.providers, b.providers, [], []);
  }

  /** The same name for two different requests: an absent and an empty backup identifier collide. */
  lemma AbsentAndEmptyBackupCollide(domain: Bytes, j: Job)
    requires j.backupId.None?
    ensures j != j.(backupId := Some([])) && JobPreimage(domain, j) == JobPreimage(domain, j.(backupId := Some([])))
  {
  }

  // --------------------------------------------------------- journal file names

  /** What the digest in a journal's file name is fed. */
  function PathPreimage(domain: Bytes, path: Bytes): Bytes {
    domain + Frame(path)
  }

  /** Different output paths have different journals. */
  lemma PathPreimageIsInjective(domain: Bytes, p: Bytes, q: Bytes)
    requires Short(p) && Short(q)
    ensures PathPreimage(domain, p) == PathPreimage(domain, q) <==> p == q
  {
    hide Frame;
    if PathPreimage(domain, p) == PathPreimage(domain, q) {
      assert PathPreimage(domain, p)[|domain|..] == Frame(p) + [];
      assert PathPreimage(domain, q)[|domain|..] == Frame(q) + [];
      FrameIsPrefixFree(p, q, [], []);
    }
  }
}
