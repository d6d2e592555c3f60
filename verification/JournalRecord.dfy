/**
 One record of the share journal as both interpreters receive it, and the digests
 that bind its immutable fields.
 */
module JournalRecord {
  import opened Common
  import opened Words256
  import opened Hex

  /** SHA-256 as a free constructor: equal digests have equal preimages. */
  datatype Digest = Sha256(preimage: seq<int>) | Sha256Of(prefix: seq<int>, inner: Digest)

  datatype Tag =
    | JobActivated
    | AcceptedShare
    | WinnerOutbox
    | WinnerObserved
    | WinnerOrphaned
    | WinnerConflicting
    | WinnerMatured
    | WinnerConfirmed
    | OtherTag(name: string)

  /** The text of an identifier that should be the canonical hex of a digest. */
  datatype IdText = Canonical(digest: Digest) | Malformed

  /** The deserialized fields; a character of a text stands for one of its bytes. */
  datatype Record = Record(
    version: nat,
    tag: Tag,
    jobId: string,
    shareId: Option<IdText>,
    acceptedAt: Option<u64>,
    recordedAt: Option<u64>,
    worker: Option<string>,
    workerAuthentication: Option<string>,
    shareTarget: Option<string>,
    parentHashLe: Option<string>,
    wcashCandidate: Option<bool>,
    zcashCandidate: Option<bool>,
    wcashBlockHash: Option<string>,
    wcashHeight: Option<u32>,
    zcashHeight: Option<u32>,
    wcashBlock: Option<string>,
    zcashBlock: Option<string>,
    chain: Option<string>,
    blockHash: Option<string>,
    height: Option<u32>)

  datatype Chain = Wcash | Zcash

  datatype WinnerKey = WinnerKey(shareId: Digest, chain: Chain)

  /** Exact-block validation: the parent header hash that valid winner bytes commit to. */
  type BlockCheck = (seq<byte>, string, u32, Chain) -> Option<seq<byte>>

  /** The validator and the two reader limits that the live writer does not enforce. */
  datatype Context = Context(check: BlockCheck, maxShares: nat, maxWinnerShares: nat)

  const JOURNAL_VERSION: nat := 2
  const MAX_ACCOUNTING_SHARES: nat := 1_000_000
  const MAX_REPLAYED_WINNER_SHARES: nat := 1_000_000
  const MAX_JOURNAL_GENERATIONS: nat := 1_000_000
  const MAX_PENDING_WINNERS: nat := 4_096
  const MAX_SHARES_PER_JOB: nat := 100_000
  const MAX_WINNER_BLOCK_BYTES: nat := 2_000_000

  predicate IsShare(tag: Tag) { tag.AcceptedShare? || tag.WinnerOutbox? }

  predicate UsesJob(r: Record) { r.tag.JobActivated? || IsShare(r.tag) }

  predicate IsStatus(tag: Tag) {
    || tag.WinnerObserved? || tag.WinnerOrphaned? || tag.WinnerConflicting?
    || tag.WinnerMatured? || tag.WinnerConfirmed?
  }

  function ChainName(chain: Chain): string {
    match chain case Wcash => "wcash" case Zcash => "zcash"
  }

  function ParseChain(text: Option<string>): Option<Chain> {
    if text == Some("wcash") then Some(Wcash)
    else if text == Some("zcash") then Some(Zcash)
    else None
  }

  predicate ValidWorkerName(worker: string) {
    && 1 <= |worker| <= 128
    && forall i :: 0 <= i < |worker| ==>
      var c := worker[i];
      || '0' <= c <= '9' || 'a' <= c <= 'z' || 'A' <= c <= 'Z'
      || c == '.' || c == '-' || c == '_' || c == ':'
  }

  /** The characters before the space and the one at 127 are the ASCII control characters. */
  predicate ValidLegacyWorkerName(worker: string) {
    && 1 <= |worker| <= 128
    && forall i :: 0 <= i < |worker| ==> ' ' <= worker[i] && worker[i] as int != 127
  }

  /* ----- digest preimages ----- */

  /* Octets of the two integer widths. */
  const W4: nat := 4
  const W8: nat := 8

  function Ints(text: string): seq<int> {
    seq(|text|, i requires 0 <= i < |text| => text[i] as int)
  }

  function Sized(octets: seq<int>): seq<int> { LittleBytes(|octets|, W8) + octets }

  function OptText(text: Option<string>): seq<int> {
    match text case None => [0] case Some(t) => [1] + Sized(Ints(t))
  }

  function OptNumber(n: Option<nat>, width: nat): seq<int> {
    match n case None => [0] case Some(v) => [1] + LittleBytes(v, width)
  }

  function Flag(b: bool): int { if b then 1 else 0 }

  function ShareIdOf(jobId: string, parentHash: seq<byte>): Digest {
    Sha256(Ints("Wcash/share-journal/v2\0") + LittleBytes(|jobId|, W8) + Ints(jobId) + parentHash)
  }

  function TagName(tag: Tag): string {
    match tag
    case JobActivated => "job_activated"
    case AcceptedShare => "accepted_share"
    case WinnerOutbox => "winner_outbox"
    case WinnerObserved => "winner_observed"
    case WinnerOrphaned => "winner_orphaned"
    case WinnerConflicting => "winner_conflicting"
    case WinnerMatured => "winner_matured"
    case WinnerConfirmed => "winner_confirmed"
    case OtherTag(name) => name
  }

  /** The coordinator reads an absent candidate flag as false. */
  predicate Candidate(flag: Option<bool>) { flag == Some(true) }

  lemma {:induction false} FlagIs(flag: Option<bool>)
    requires flag.Some?
    ensures flag == Some(Candidate(flag))
  {
    if flag.value { assert flag == Some(true); } else { assert flag == Some(false); }
  }

  /** The octets hashed for an idempotent-replay comparison, field by field. */
  function SharePreimage(r: Record): seq<int> {
    Ints("Wcash/share-journal/immutable-replay/v1\0")
    + (Sized(Ints(TagName(r.tag)))
    + (Sized(Ints(r.jobId))
    + (OptText(r.worker)
    + (OptText(r.workerAuthentication)
    + (OptText(r.parentHashLe)
    + (OptText(r.shareTarget)
    + ([Flag(Candidate(r.wcashCandidate)), Flag(Candidate(r.zcashCandidate))]
    + (OptText(r.wcashBlockHash)
    + (OptNumber(r.wcashHeight, W4)
    + (OptNumber(r.zcashHeight, W4)
    + (OptText(r.wcashBlock)
    + OptText(r.zcashBlock))))))))))))
  }

  function ShareFingerprint(r: Record): Digest { Sha256(SharePreimage(r)) }

  function ExactRecordFingerprint(r: Record): Digest {
    Sha256Of(Ints("Wcash/share-journal/exact-record/v1\0") + OptNumber(r.acceptedAt, W8), ShareFingerprint(r))
  }

  /* ----- preimages are uniquely decodable ----- */

  lemma {:induction false} CancelPrefix(p: seq<int>, q: seq<int>, x: seq<int>, y: seq<int>)
    requires p + x == q + y && |p| == |q|
    ensures p == q && x == y
  {
    assert (p + x)[..|p|] == p && (q + y)[..|q|] == q;
    assert (p + x)[|p|..] == x && (q + y)[|q|..] == y;
  }

  lemma {:induction false} LittleBytesInjective(a: nat, b: nat, width: nat)
    requires a < Pow256(width) && b < Pow256(width)
    requires LittleBytes(a, width) == LittleBytes(b, width)
    ensures a == b
  {
    LittleBytesValue(a, width);
    LittleBytesValue(b, width);
  }

  lemma {:induction false} Pow256Values()
    ensures Pow256(W4) == U32_MAX + 1 && Pow256(W8) == U64_MAX + 1
  {
    assert Pow256(2) == 65536;
    assert Pow256(4) == 256 * (256 * Pow256(2));
    assert Pow256(6) == 256 * (256 * Pow256(4));
    assert Pow256(8) == 256 * (256 * Pow256(6));
  }

  lemma {:induction false} IntsInjective(a: string, b: string)
    requires Ints(a) == Ints(b)
    ensures a == b
  {
    assert |a| == |Ints(a)| == |b|;
    forall i | 0 <= i < |a| ensures a[i] == b[i] {
      assert Ints(a)[i] == Ints(b)[i];
    }
  }

  /** A length-prefixed field ends where its length says. */
  lemma {:induction false} SizedUnique(a: seq<int>, b: seq<int>, x: seq<int>, y: seq<int>)
    requires |a| <= U64_MAX && |b| <= U64_MAX
    requires Sized(a) + x == Sized(b) + y
    ensures a == b && x == y
  {
    assert Sized(a) + x == LittleBytes(|a|, W8) + (a + x);
    assert Sized(b) + y == LittleBytes(|b|, W8) + (b + y);
    CancelPrefix(LittleBytes(|a|, W8), LittleBytes(|b|, W8), a + x, b + y);
    Pow256Values();
    LittleBytesInjective(|a|, |b|, W8);
    CancelPrefix(a, b, x, y);
  }

  lemma {:induction false} TextUnique(a: string, b: string, x: seq<int>, y: seq<int>)
    requires |a| <= U64_MAX && |b| <= U64_MAX
    requires Sized(Ints(a)) + x == Sized(Ints(b)) + y
    ensures a == b && x == y
  {
    SizedUnique(Ints(a), Ints(b), x, y);
    IntsInjective(a, b);
  }

  predicate Fits(text: Option<string>) { text.Some? ==> |text.value| <= U64_MAX }

  /** An optional field's first octet says whether the field is there. */
  lemma {:induction false} OptHead(p: seq<int>, q: seq<int>, x: seq<int>, y: seq<int>)
    requires p + x == q + y && p != [] && q != []
    ensures p[0] == q[0] && p[1..] + x == q[1..] + y
  {
    assert (p + x)[0] == p[0] && (q + y)[0] == q[0];
    assert (p + x)[1..] == p[1..] + x && (q + y)[1..] == q[1..] + y;
  }

  lemma {:induction false} OptTextUnique(a: Option<string>, b: Option<string>, x: seq<int>, y: seq<int>)
    requires Fits(a) && Fits(b)
    requires OptText(a) + x == OptText(b) + y
    ensures a == b && x == y
  {
    OptHead(OptText(a), OptText(b), x, y);
    if a.Some? {
      TextUnique(a.value, b.value, x, y);
    } else {
      assert OptText(a)[1..] + x == x && OptText(b)[1..] + y == y;
    }
  }

  lemma {:induction false} OptNumberUnique(a: Option<nat>, b: Option<nat>, width: nat, x: seq<int>, y: seq<int>)
    requires a.Some? ==> a.value < Pow256(width)
    requires b.Some? ==> b.value < Pow256(width)
    requires OptNumber(a, width) + x == OptNumber(b, width) + y
    ensures a == b && x == y
  {
    OptHead(OptNumber(a, width), OptNumber(b, width), x, y);
    if a.Some? {
      CancelPrefix(LittleBytes(a.value, width), LittleBytes(b.value, width), x, y);
      LittleBytesInjective(a.value, b.value, width);
    } else {
      assert OptNumber(a, width)[1..] + x == x && OptNumber(b, width)[1..] + y == y;
    }
  }

  /** A share identifier binds its job and its parent header. */
  lemma {:induction false} ShareIdInjective(jobA: string, parentA: seq<byte>, jobB: string, parentB: seq<byte>)
    requires |jobA| <= U64_MAX && |jobB| <= U64_MAX
    requires ShareIdOf(jobA, parentA) == ShareIdOf(jobB, parentB)
    ensures jobA == jobB && parentA == parentB
  {
    var d := Ints("Wcash/share-journal/v2\0");
    assert ShareIdOf(jobA, parentA).preimage == d + (Sized(Ints(jobA)) + parentA);
    assert ShareIdOf(jobB, parentB).preimage == d + (Sized(Ints(jobB)) + parentB);
    CancelPrefix(d, d, Sized(Ints(jobA)) + parentA, Sized(Ints(jobB)) + parentB);
    TextUnique(jobA, jobB, parentA, parentB);
  }

  /** The text fields that a journal line can hold are far below 2^64 bytes. */
  predicate LineSized(r: Record) {
    && |TagName(r.tag)| <= U64_MAX && |r.jobId| <= U64_MAX
    && Fits(r.worker) && Fits(r.workerAuthentication) && Fits(r.parentHashLe) && Fits(r.shareTarget)
    && Fits(r.wcashBlockHash) && Fits(r.wcashBlock) && Fits(r.zcashBlock)
  }

  /** The front half of the replay fingerprint decodes uniquely. */
  lemma {:induction false} PreimageHead(a: Record, b: Record, x: seq<int>, y: seq<int>)
    requires LineSized(a) && LineSized(b)
    requires Sized(Ints(TagName(a.tag))) + (Sized(Ints(a.jobId)) + (OptText(a.worker)
               + (OptText(a.workerAuthentication) + (OptText(a.parentHashLe) + (OptText(a.shareTarget) + x)))))
          == Sized(Ints(TagName(b.tag))) + (Sized(Ints(b.jobId)) + (OptText(b.worker)
               + (OptText(b.workerAuthentication) + (OptText(b.parentHashLe) + (OptText(b.shareTarget) + y)))))
    ensures TagName(a.tag) == TagName(b.tag) && a.jobId == b.jobId && a.worker == b.worker
    ensures a.workerAuthentication == b.workerAuthentication && a.parentHashLe == b.parentHashLe
    ensures a.shareTarget == b.shareTarget && x == y
  {
    var x1, y1 := OptText(a.shareTarget) + x, OptText(b.shareTarget) + y;
    var x2, y2 := OptText(a.parentHashLe) + x1, OptText(b.parentHashLe) + y1;
    var x3, y3 := OptText(a.workerAuthentication) + x2, OptText(b.workerAuthentication) + y2;
    var x4, y4 := OptText(a.worker) + x3, OptText(b.worker) + y3;
    TextUnique(TagName(a.tag), TagName(b.tag), Sized(Ints(a.jobId)) + x4, Sized(Ints(b.jobId)) + y4);
    TextUnique(a.jobId, b.jobId, x4, y4);
    OptTextUnique(a.worker, b.worker, x3, y3);
    OptTextUnique(a.workerAuthentication, b.workerAuthentication, x2, y2);
    OptTextUnique(a.parentHashLe, b.parentHashLe, x1, y1);
    OptTextUnique(a.shareTarget, b.shareTarget, x, y);
  }

  function PreimageTail(r: Record): seq<int> {
    OptText(r.wcashBlockHash) + (OptNumber(r.wcashHeight, W4) + (OptNumber(r.zcashHeight, W4)
    + (OptText(r.wcashBlock) + OptText(r.zcashBlock))))
  }

  lemma {:induction false} PreimageTailUnique(a: Record, b: Record)
    requires LineSized(a) && LineSized(b)
    requires PreimageTail(a) == PreimageTail(b)
    ensures a.wcashBlockHash == b.wcashBlockHash
    ensures a.wcashHeight == b.wcashHeight && a.zcashHeight == b.zcashHeight
    ensures a.wcashBlock == b.wcashBlock && a.zcashBlock == b.zcashBlock
  {
    Pow256Values();
    var x1, y1 := OptText(a.wcashBlock) + OptText(a.zcashBlock), OptText(b.wcashBlock) + OptText(b.zcashBlock);
    var x2, y2 := OptNumber(a.zcashHeight, W4) + x1, OptNumber(b.zcashHeight, W4) + y1;
    var x3, y3 := OptNumber(a.wcashHeight, W4) + x2, OptNumber(b.wcashHeight, W4) + y2;
    OptTextUnique(a.wcashBlockHash, b.wcashBlockHash, x3, y3);
    OptNumberUnique(a.wcashHeight, b.wcashHeight, W4, x2, y2);
    OptNumberUnique(a.zcashHeight, b.zcashHeight, W4, x1, y1);
    OptTextUnique(a.wcashBlock, b.wcashBlock, OptText(a.zcashBlock), OptText(b.zcashBlock));
    assert OptText(a.zcashBlock) + [] == OptText(a.zcashBlock);
    assert OptText(b.zcashBlock) + [] == OptText(b.zcashBlock);
    OptTextUnique(a.zcashBlock, b.zcashBlock, [], []);
  }

  /** The replay fingerprint binds every immutable share and winner field. */
  lemma {:induction false} FingerprintBinds(a: Record, b: Record)
    requires LineSized(a) && LineSized(b)
    requires ShareFingerprint(a) == ShareFingerprint(b)
    ensures TagName(a.tag) == TagName(b.tag) && a.jobId == b.jobId && a.worker == b.worker
    ensures a.workerAuthentication == b.workerAuthentication
    ensures a.parentHashLe == b.parentHashLe && a.shareTarget == b.shareTarget
    ensures Candidate(a.wcashCandidate) == Candidate(b.wcashCandidate)
    ensures Candidate(a.zcashCandidate) == Candidate(b.zcashCandidate)
    ensures a.wcashBlockHash == b.wcashBlockHash
    ensures a.wcashHeight == b.wcashHeight && a.zcashHeight == b.zcashHeight
    ensures a.wcashBlock == b.wcashBlock && a.zcashBlock == b.zcashBlock
  {
    var d := Ints("Wcash/share-journal/immutable-replay/v1\0");
    var fa := [Flag(Candidate(a.wcashCandidate)), Flag(Candidate(a.zcashCandidate))];
    var fb := [Flag(Candidate(b.wcashCandidate)), Flag(Candidate(b.zcashCandidate))];
    CancelPrefix(d, d, SharePreimage(a)[|d|..], SharePreimage(b)[|d|..]);
    assert SharePreimage(a)[|d|..] == Sized(Ints(TagName(a.tag))) + (Sized(Ints(a.jobId)) + (OptText(a.worker)
        + (OptText(a.workerAuthentication) + (OptText(a.parentHashLe) + (OptText(a.shareTarget)
        + (fa + PreimageTail(a)))))));
    assert SharePreimage(b)[|d|..] == Sized(Ints(TagName(b.tag))) + (Sized(Ints(b.jobId)) + (OptText(b.worker)
        + (OptText(b.workerAuthentication) + (OptText(b.parentHashLe) + (OptText(b.shareTarget)
        + (fb + PreimageTail(b)))))));
    PreimageHead(a, b, fa + PreimageTail(a), fb + PreimageTail(b));
    CancelPrefix(fa, fb, PreimageTail(a), PreimageTail(b));
    assert fa[0] == fb[0] && fa[1] == fb[1];
    PreimageTailUnique(a, b);
  }
}
