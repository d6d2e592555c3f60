/**
 What the two interpreters refuse.  On a well-formed next record they agree in both directions, apart from one
 kind of record that only accounting refuses: a plain share that reuses an identifier.
 */
module Refusals {
  import opened Common
  import opened Hex
  import opened JournalRecord
  import opened Accounting
  import opened Replay
  import opened Agreement
  import opened RecordCounts
  import opened WriterCompat
  import opened Acceptance
  import opened Admission

  /* ----- texts and fingerprints ----- */

  lemma {:induction false} EncodedIsLower(b: seq<byte>, i: nat)
    requires i < |HexEncode(b)|
    ensures Lower(HexEncode(b)[i]) == HexEncode(b)[i]
  {
    if i < 2 {
    } else {
      assert HexEncode(b)[i] == HexEncode(b[1..])[i - 2];
      EncodedIsLower(b[1..], i - 2);
    }
  }

  /** Canonical texts that differ at most in case are equal. */
  lemma {:induction false} CanonicalIgnoresCase(a: string, b: string)
    requires ValidateCanonical32(a).Some? && ValidateCanonical32(b).Some? && EqIgnoreAsciiCase(a, b)
    ensures a == b
  {
    forall i | 0 <= i < |a| ensures a[i] == b[i] {
      EncodedIsLower(ValidateCanonical32(a).value, i);
      EncodedIsLower(ValidateCanonical32(b).value, i);
    }
  }

  /** The exact fingerprint binds the time of acceptance and the replay fingerprint. */
  lemma {:induction false} ExactFingerprintBinds(a: Record, b: Record)
    requires ExactRecordFingerprint(a) == ExactRecordFingerprint(b)
    ensures a.acceptedAt == b.acceptedAt && ShareFingerprint(a) == ShareFingerprint(b)
  {
    var d := Ints("Wcash/share-journal/exact-record/v1\0");
    Pow256Values();
    CancelPrefix(d, d, OptNumber(a.acceptedAt, W8), OptNumber(b.acceptedAt, W8));
    assert OptNumber(a.acceptedAt, W8) + [] == OptNumber(a.acceptedAt, W8);
    assert OptNumber(b.acceptedAt, W8) + [] == OptNumber(b.acceptedAt, W8);
    OptNumberUnique(a.acceptedAt, b.acceptedAt, W8, [], []);
  }

  /* ----- marks ----- */

  /** The replay allows the same flags as accounting, and no others. */
  lemma {:induction false} FlagsAgree(tag: Tag, k: WinnerKey, p: PendingStatus, q: PendingWinner)
    requires SameWinner(k, p, q)
    ensures FlagsAfter(tag, k.chain, q).Ok? <==> EffectOf(tag, k.chain, p).Ok?
  {
  }

  lemma {:induction false} SameHash(a: string, b: string)
    requires ValidateCanonical32(a).Some? && ValidateCanonical32(b).Some?
    ensures EqIgnoreAsciiCase(a, b) <==> a == b
  {
    if EqIgnoreAsciiCase(a, b) { CanonicalIgnoresCase(a, b); }
  }

  lemma {:induction false} MarkOkIff(a: map<WinnerKey, PendingStatus>, r: Record, k: WinnerKey)
    requires ValidStatusFields(r) && k == WinnerKey(r.shareId.value.digest, ParseChain(r.chain).value)
    ensures ApplyWinnerStatus(a, r).Ok? <==>
            && k in a && a[k].jobId == r.jobId && a[k].blockHash == r.blockHash.value && a[k].height == r.height.value
            && EffectOf(r.tag, k.chain, a[k]).Ok?
  {
  }

  lemma {:induction false} ReplayedMarkOkIff(b: map<WinnerKey, PendingWinner>, r: Record, k: WinnerKey)
    requires ValidStatusFields(r) && k == WinnerKey(r.shareId.value.digest, ParseChain(r.chain).value)
    ensures ReplayStatus(b, r).Ok? <==>
            && k in b && b[k].jobId == r.jobId && EqIgnoreAsciiCase(b[k].blockHashDisplay, r.blockHash.value)
            && b[k].height == r.height.value && FlagsAfter(r.tag, k.chain, b[k]).Ok?
  {
  }

  lemma {:induction false} MarksAgree(a: map<WinnerKey, PendingStatus>, b: map<WinnerKey, PendingWinner>, r: Record)
    requires SamePending(a, b) && GoodPending(a) && ValidStatusFields(r)
    ensures ReplayStatus(b, r).Ok? <==> ApplyWinnerStatus(a, r).Ok?
  {
    var k := WinnerKey(r.shareId.value.digest, ParseChain(r.chain).value);
    MarkOkIff(a, r, k);
    ReplayedMarkOkIff(b, r, k);
    if k in a {
      assert SameWinner(k, a[k], b[k]) && GoodStatus(a[k]);
      FlagsAgree(r.tag, k, a[k], b[k]);
      SameHash(b[k].blockHashDisplay, r.blockHash.value);
    }
  }

  /* ----- winner blocks ----- */

  /** A block text is there exactly where its flag says, and is canonical. */
  predicate BlockTextFits(flag: Option<bool>, text: Option<string>) {
    if flag == Some(true) then text.Some? && Hex.Canonical(text.value) else text.None?
  }

  lemma {:induction false} BlockTextsAgree(text: Option<string>)
    requires text.Some? && Hex.Canonical(text.value)
    ensures DecodeBoundedHex(text) == DecodeBoundedBlock(text)
  {
    DecodeLength(text.value);
  }

  lemma {:induction false} PartsAgree(check: BlockCheck, r: Record, id: Digest, parent: seq<byte>)
    requires ValidShareFields(r) && ValidateCanonical32(r.parentHashLe.value) == Some(parent)
    requires BlockTextFits(r.wcashCandidate, r.wcashBlock) && BlockTextFits(r.zcashCandidate, r.zcashBlock)
    ensures Candidate(r.wcashCandidate) ==>
              (WcashPart(check, r, id, parent).Ok? <==>
               PersistedWinner(check, Wcash, id, r.jobId, r.wcashBlockHash.value, r.wcashHeight, r.wcashBlock,
                               parent).Ok?)
    ensures Candidate(r.zcashCandidate) ==>
              (ZcashPart(check, r, id, parent).Ok? <==>
               PersistedWinner(check, Zcash, id, r.jobId, DisplayHash(parent), r.zcashHeight, r.zcashBlock, parent).Ok?)
    ensures !Candidate(r.wcashCandidate) ==> WcashPart(check, r, id, parent) == Ok(([], []))
    ensures !Candidate(r.zcashCandidate) ==> ZcashPart(check, r, id, parent) == Ok(([], []))
  {
    if Candidate(r.wcashCandidate) { BlockTextsAgree(r.wcashBlock); }
    if Candidate(r.zcashCandidate) { BlockTextsAgree(r.zcashBlock); }
  }

  /** Both interpreters validate the blocks of a winning share alike. */
  lemma {:induction false} BlocksAgree(check: BlockCheck, r: Record, id: Digest)
    requires r.tag.WinnerOutbox? && ValidShareFields(r)
    requires BlockTextFits(r.wcashCandidate, r.wcashBlock) && BlockTextFits(r.zcashCandidate, r.zcashBlock)
    ensures PersistedWinners(check, r, id).Ok? <==> ValidateWinnerBlocks(check, r, id).Ok?
  {
    var parent := ValidateCanonical32(r.parentHashLe.value).value;
    CanonicalParsersAgree(r.parentHashLe.value);
    CanonicalParsersAgree(r.wcashBlockHash.value);
    PartsAgree(check, r, id, parent);
    FlagIs(r.wcashCandidate);
    FlagIs(r.zcashCandidate);
  }

  /* ----- the next record ----- */

  /** The record passes every check that does not depend on what came before. */
  predicate Formed(ctx: Context, r: Record) {
    && r.version == 2 && ValidateCanonical32(r.jobId).Some?
    && (|| (r.tag.JobActivated? && ValidJobActivation(r))
        || (IsShare(r.tag) && CheckedShare(ctx, r).Ok?)
        || (IsStatus(r.tag) && ValidStatusFields(r)))
  }

  /** A share that reuses the identifier of another one, where one of the two won nothing. */
  ghost predicate ReusesPlainly(rs: seq<Record>, r: Record) {
    IsShare(r.tag) && exists a :: a in rs && IsShare(a.tag) && a.shareId == r.shareId && a != r
                                  && (a.tag.AcceptedShare? || r.tag.AcceptedShare?)
  }

  /** The states of both interpreters after an accepted journal. */
  lemma {:induction false} BothStates(ctx: Context, rs: seq<Record>)
    requires AccountAll(ctx, rs).Ok? && ReplayAll(ctx, rs).Ok? && ctx.maxShares <= ctx.maxWinnerShares
    ensures var l, s := AccountAll(ctx, rs).value, ReplayAll(ctx, rs).value;
            && LedgerInv(CheckerOf(ctx), RecordsOf(rs), l, OriginOf(ctx, rs)) && Sim(l, s, OriginOf(ctx, rs))
            && |l.pending| <= MAX_PENDING_WINNERS && GoodPending(l.pending)
  {
    ReplayFollows(ctx, rs);
    LedgerRemembers(ctx, rs);
    PendingAlwaysGood(ctx, rs);
    PendingBoundedAlways(ctx, rs);
    assert rs[..|rs|] == rs;
    assert CountOf(ctx)(rs) <= MAX_PENDING_WINNERS;
  }

  lemma {:induction false} ActivationRefused(ctx: Context, l: Ledger, s: ReplayState, r: Record)
    requires s.seenJobIds == l.usedJobs && r.tag.JobActivated? && ValidateCanonical32(r.jobId).Some?
    requires AccountRecord(ctx, l, r).Err? && r.version == JOURNAL_VERSION && ValidJobActivation(r)
    ensures ReplayRecord(ctx, s, r).Err?
  {
    CanonicalParsersAgree(r.jobId);
  }

  lemma {:induction false} MarkRefused(ctx: Context, l: Ledger, s: ReplayState, r: Record)
    requires SamePending(l.pending, s.pending) && GoodPending(l.pending) && IsStatus(r.tag) && ValidStatusFields(r)
    requires AccountRecord(ctx, l, r).Err? && r.version == JOURNAL_VERSION
    ensures ReplayRecord(ctx, s, r).Err?
  {
    CanonicalParsersAgree(r.jobId);
    MarksAgree(l.pending, s.pending, r);
  }

  /** A new share whose job does not fit. */
  lemma {:induction false} NewShareRefused(ctx: Context, s: ReplayState, r: Record)
    requires IsShare(r.tag) && ValidateCanonical32(r.jobId).Some? && r.version == JOURNAL_VERSION
    requires ValidateCanonical32(r.jobId).value !in s.seenJobIds && |s.seenJobIds| >= MAX_JOURNAL_GENERATIONS
    ensures ReplayRecord(ctx, s, r).Err?
  {
    CanonicalParsersAgree(r.jobId);
  }

  lemma {:induction false} FormedShape(ctx: Context, r: Record)
    requires IsShare(r.tag) && r.version == JOURNAL_VERSION && CheckedShare(ctx, r).Ok?
    ensures ShareShape(r) && HasId(r) && RequiredShareId(r) == Ok(CheckedShare(ctx, r).value.id)
  {
    CheckedReads(ctx, r);
  }

  lemma {:induction false} DifferentFingerprints(a: Record, b: Record)
    requires ShareShape(a) && ShareShape(b) && LineSized(a) && LineSized(b) && a.shareId == b.shareId && a != b
    ensures ExactRecordFingerprint(a) != ExactRecordFingerprint(b)
  {
    if ExactRecordFingerprint(a) == ExactRecordFingerprint(b) {
      ExactFingerprintBinds(a, b);
      SameShareSameRecord(a, b);
    }
  }

  lemma {:induction false} ReusedIdentityRefused(ctx: Context, s: ReplayState, r: Record, id: Digest)
    requires r.tag.WinnerOutbox? && RequiredShareId(r) == Ok(id)
    requires id in s.identities && s.identities[id] != ExactRecordFingerprint(r)
    ensures ReplayRecord(ctx, s, r).Err?
  {
  }

  lemma {:induction false} KnownIn(
    chk: Checker, read: set<Record>, l: Ledger, identities: map<Digest, Digest>, origin: map<Digest, Record>, a: Record)
    requires LedgerInv(chk, read, l, origin) && SameIdentities(identities, origin)
    requires a in read && a.tag.WinnerOutbox?
    ensures chk(a).Ok? && a.version == JOURNAL_VERSION
    ensures chk(a).value.id in identities && identities[chk(a).value.id] == ExactRecordFingerprint(a)
  {
    assert Behind(chk, l, chk(a).value.id, a);
  }

  /** The replay knows every outbox record by its exact fingerprint. */
  lemma {:induction false} KnownWinner(ctx: Context, rs: seq<Record>, a: Record)
    requires AccountAll(ctx, rs).Ok? && ReplayAll(ctx, rs).Ok? && ctx.maxShares <= ctx.maxWinnerShares
    requires a in rs && a.tag.WinnerOutbox?
    ensures ShareShape(a) && HasId(a)
    ensures var known, id := ReplayAll(ctx, rs).value.identities, a.shareId.value.digest;
            id in known && known[id] == ExactRecordFingerprint(a)
  {
    BothStates(ctx, rs);
    RecordsOfAll(rs);
    KnownIn(CheckerOf(ctx), RecordsOf(rs), AccountAll(ctx, rs).value, ReplayAll(ctx, rs).value.identities,
            OriginOf(ctx, rs), a);
    FormedShape(ctx, a);
  }

  /** An outbox record that reuses the identifier of another outbox record. */
  lemma {:induction false} ChangedWinnerRefused(ctx: Context, rs: seq<Record>, r: Record, a: Record)
    requires AccountAll(ctx, rs).Ok? && ReplayAll(ctx, rs).Ok? && ctx.maxShares <= ctx.maxWinnerShares
    requires a in rs && a.tag.WinnerOutbox? && r.tag.WinnerOutbox? && Formed(ctx, r)
    requires a.shareId == r.shareId && a != r && LineSized(a) && LineSized(r)
    ensures ReplayRecord(ctx, ReplayAll(ctx, rs).value, r).Err?
  {
    KnownWinner(ctx, rs, a);
    FormedShape(ctx, r);
    DifferentFingerprints(a, r);
    ReusedIdentityRefused(ctx, ReplayAll(ctx, rs).value, r, r.shareId.value.digest);
  }

  /** Why accounting refuses a well-formed share while shares fit. */
  lemma {:induction false} WhyRefused(ctx: Context, rs: seq<Record>, r: Record)
    requires AccountAll(ctx, rs).Ok? && ctx.maxShares < U64_MAX && |Ids(rs, Anything())| < ctx.maxShares
    requires IsShare(r.tag) && Formed(ctx, r) && AccountRecord(ctx, AccountAll(ctx, rs).value, r).Err?
    ensures HasId(r) && r !in rs
    ensures r.shareId.value.digest !in Ids(rs, Anything()) ==>
              ValidateCanonical32(r.jobId).value !in AccountAll(ctx, rs).value.usedJobs
              && |AccountAll(ctx, rs).value.usedJobs| >= 1_000_000
  {
    FormedShape(ctx, r);
    ShareIff(ctx, rs, r);
    JobIsUsed(ctx, rs, r.jobId);
  }

  lemma {:induction false} ShareRefused(ctx: Context, rs: seq<Record>, r: Record)
    requires AccountAll(ctx, rs).Ok? && ReplayAll(ctx, rs).Ok? && ctx.maxShares <= ctx.maxWinnerShares
    requires ctx.maxShares < U64_MAX && |Ids(rs, Anything())| < ctx.maxShares
    requires IsShare(r.tag) && Formed(ctx, r) && !ReusesPlainly(rs, r) && LineSized(r)
    requires forall a :: a in rs ==> LineSized(a)
    requires AccountRecord(ctx, AccountAll(ctx, rs).value, r).Err?
    ensures ReplayRecord(ctx, ReplayAll(ctx, rs).value, r).Err?
  {
    WhyRefused(ctx, rs, r);
    var id := r.shareId.value.digest;
    if id in Ids(rs, Anything()) {
      var a :| a in rs && IsShare(a.tag) && HasId(a) && Anything()(a) && a.shareId.value.digest == id;
      assert a.shareId == r.shareId;
      ChangedWinnerRefused(ctx, rs, r, a);
    } else {
      SameJobs(ctx, rs);
      NewShareRefused(ctx, ReplayAll(ctx, rs).value, r);
    }
  }

  lemma {:induction false} SameJobs(ctx: Context, rs: seq<Record>)
    requires AccountAll(ctx, rs).Ok? && ReplayAll(ctx, rs).Ok? && ctx.maxShares <= ctx.maxWinnerShares
    ensures ReplayAll(ctx, rs).value.seenJobIds == AccountAll(ctx, rs).value.usedJobs
  {
    BothStates(ctx, rs);
  }

  lemma {:induction false} OtherRefused(ctx: Context, l: Ledger, s: ReplayState, r: Record)
    requires Agree(l, s) && GoodPending(l.pending) && Formed(ctx, r) && !IsShare(r.tag)
    requires AccountRecord(ctx, l, r).Err?
    ensures ReplayRecord(ctx, s, r).Err?
  {
    if r.tag.JobActivated? { ActivationRefused(ctx, l, s, r); } else { MarkRefused(ctx, l, s, r); }
  }

  lemma {:induction false} BothRefuse(ctx: Context, rs: seq<Record>, r: Record)
    requires AccountAll(ctx, rs).Ok? && ReplayAll(ctx, rs).Ok? && ctx.maxShares <= ctx.maxWinnerShares
    requires ctx.maxShares < U64_MAX && |Ids(rs, Anything())| < ctx.maxShares
    requires Formed(ctx, r) && !ReusesPlainly(rs, r) && LineSized(r) && forall a :: a in rs ==> LineSized(a)
    requires AccountRecord(ctx, AccountAll(ctx, rs).value, r).Err?
    ensures ReplayRecord(ctx, ReplayAll(ctx, rs).value, r).Err?
  {
    if IsShare(r.tag) {
      ShareRefused(ctx, rs, r);
    } else {
      BothStates(ctx, rs);
      OtherRefused(ctx, AccountAll(ctx, rs).value, ReplayAll(ctx, rs).value, r);
    }
  }

  /** Both interpreters step from where the journal left them. */
  lemma {:induction false} BothStep(ctx: Context, rs: seq<Record>, r: Record)
    requires AccountAll(ctx, rs).Ok? && ReplayAll(ctx, rs).Ok?
    ensures AccountAll(ctx, rs + [r]) == AccountRecord(ctx, AccountAll(ctx, rs).value, r)
    ensures ReplayAll(ctx, rs + [r]) == ReplayRecord(ctx, ReplayAll(ctx, rs).value, r)
  {
    assert (rs + [r])[..|rs|] == rs;
  }

  /**
   Agreement in both directions.  After a journal that both interpreters accept, a well-formed record that does not
   plainly reuse an identifier, while shares fit, is accepted by the replay if and only if accounting accepts it and
   the outbox has room.
   */
  lemma {:induction false} BothAcceptOrRefuse(ctx: Context, rs: seq<Record>, r: Record)
    requires AccountAll(ctx, rs).Ok? && ReplayAll(ctx, rs).Ok? && ctx.maxShares <= ctx.maxWinnerShares
    requires ctx.maxShares < U64_MAX && |Ids(rs, Anything())| < ctx.maxShares
    requires Formed(ctx, r) && !ReusesPlainly(rs, r) && LineSized(r) && forall a :: a in rs ==> LineSized(a)
    ensures ReplayAll(ctx, rs + [r]).Ok? <==>
            AccountAll(ctx, rs + [r]).Ok? && |AccountAll(ctx, rs + [r]).value.pending| <= 4096
  {
    BothStep(ctx, rs, r);
    if AccountAll(ctx, rs + [r]).Ok? {
      BothStates(ctx, rs);
      RecordFollows(ctx, RecordsOf(rs), AccountAll(ctx, rs).value, ReplayAll(ctx, rs).value, OriginOf(ctx, rs), r);
    } else {
      BothRefuse(ctx, rs, r);
    }
  }
}
