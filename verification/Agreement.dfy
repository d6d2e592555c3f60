/**
 The two interpreters of the journal agree.  The coordinator opens a journal only after
 the accounting parser accepted it; its own replay then rebuilds the same jobs and the
 same pending winners, and it can fail in one way only.
 */
module Agreement {
  import opened Common
  import opened Words256
  import opened Hex
  import opened JournalRecord
  import opened Accounting
  import opened Replay

  /* ----- duplicates are exact ----- */

  lemma {:induction false} DecodedBlock(text: Option<string>)
    requires DecodeBoundedBlock(text).Ok?
    ensures text == Some(HexEncode(DecodeBoundedBlock(text).value))
    ensures |DecodeBoundedBlock(text).value| <= MAX_WINNER_BLOCK_BYTES
    ensures DecodeBoundedHex(text) == DecodeBoundedBlock(text)
  {
    DecodeLength(text.value);
  }

  lemma {:induction false} SamePrefixSized(p: seq<int>, a: seq<byte>, b: seq<byte>, x: seq<int>, y: seq<int>)
    requires |a| <= U64_MAX && |b| <= U64_MAX
    requires (p + Sized(a)) + x == (p + Sized(b)) + y
    ensures a == b && x == y
  {
    assert (p + Sized(a)) + x == p + (Sized(a) + x);
    assert (p + Sized(b)) + y == p + (Sized(b) + y);
    CancelPrefix(p, p, Sized(a) + x, Sized(b) + y);
    SizedUnique(a, b, x, y);
  }

  lemma {:induction false} WinnerOctetsUnique(
    chain: Chain, hash: string, height: u32, a: seq<byte>, b: seq<byte>, x: seq<int>, y: seq<int>)
    requires |a| <= U64_MAX && |b| <= U64_MAX
    requires WinnerOctets(chain, hash, height, a) + x == WinnerOctets(chain, hash, height, b) + y
    ensures a == b && x == y
  {
    SamePrefixSized(Ints(ChainName(chain) + "\0") + Ints(hash) + LittleBytes(height, W4), a, b, x, y);
  }

  /** Two outbox records with the same metadata and the same winner fingerprint hold the same blocks. */
  lemma {:induction false} SameFingerprintSameBlocks(check: BlockCheck, a: Record, b: Record, id: Digest)
    requires a.tag.WinnerOutbox? && b.tag.WinnerOutbox?
    requires ValidateWinnerBlocks(check, a, id).Ok? && ValidateWinnerBlocks(check, b, id).Ok?
    requires ValidateWinnerBlocks(check, a, id).value.fingerprint
          == ValidateWinnerBlocks(check, b, id).value.fingerprint
    requires a.parentHashLe == b.parentHashLe && a.wcashBlockHash == b.wcashBlockHash
    requires a.wcashHeight == b.wcashHeight && a.zcashHeight == b.zcashHeight
    requires a.wcashCandidate == b.wcashCandidate && a.zcashCandidate == b.zcashCandidate
    ensures a.wcashBlock == b.wcashBlock && a.zcashBlock == b.zcashBlock
  {
    var parent := ValidateCanonical32(a.parentHashLe.value).value;
    var wa, wb := WcashPart(check, a, id, parent).value.1, WcashPart(check, b, id, parent).value.1;
    var za, zb := ZcashPart(check, a, id, parent).value.1, ZcashPart(check, b, id, parent).value.1;
    CancelPrefix(Ints(WINNER_DOMAIN), Ints(WINNER_DOMAIN), wa + za, wb + zb);
    if Candidate(a.wcashCandidate) {
      DecodedBlock(a.wcashBlock);
      DecodedBlock(b.wcashBlock);
      WinnerOctetsUnique(Wcash, a.wcashBlockHash.value, a.wcashHeight.value,
                         DecodeBoundedBlock(a.wcashBlock).value, DecodeBoundedBlock(b.wcashBlock).value, za, zb);
    } else {
      assert wa + za == za && wb + zb == zb;
    }
    if Candidate(a.zcashCandidate) {
      DecodedBlock(a.zcashBlock);
      DecodedBlock(b.zcashBlock);
      assert za + [] == za && zb + [] == zb;
      WinnerOctetsUnique(Zcash, DisplayHash(parent), a.zcashHeight.value,
                         DecodeBoundedBlock(a.zcashBlock).value, DecodeBoundedBlock(b.zcashBlock).value, [], []);
    }
  }

  /** Equal accounting data comes from equal share metadata. */
  lemma {:induction false} SameImmutableSameFields(a: Record, b: Record)
    requires IsShare(a.tag) && IsShare(b.tag)
    requires ImmutableShareOf(a).Ok? && ImmutableShareOf(a) == ImmutableShareOf(b)
    ensures a == b.(version := a.version, shareId := a.shareId, wcashBlock := a.wcashBlock, zcashBlock := a.zcashBlock)
  {
    assert a.workerAuthentication == b.workerAuthentication;
  }

  /** What the accounting parser treats as a duplicate share is a copy of the whole record. */
  lemma {:induction false} DuplicateIsExact(ctx: Context, a: Record, b: Record)
    requires IsShare(a.tag) && IsShare(b.tag) && a.version == b.version
    requires CheckedShare(ctx, a).Ok? && CheckedShare(ctx, b).Ok?
    requires CheckedShare(ctx, a).value.id == CheckedShare(ctx, b).value.id
    requires CheckedShare(ctx, a).value.share == CheckedShare(ctx, b).value.share
    ensures a == b
  {
    var sa, sb := ImmutableShareOf(a).value, ImmutableShareOf(b).value;
    assert sa.winnerFingerprint == sb.winnerFingerprint == None;
    assert sa == CheckedShare(ctx, a).value.share.(winnerFingerprint := None);
    assert sb == CheckedShare(ctx, b).value.share.(winnerFingerprint := None);
    assert sa == sb;
    SameImmutableSameFields(a, b);
    assert a.shareId == b.shareId;
    if a.tag.WinnerOutbox? {
      SameFingerprintSameBlocks(ctx.check, a, b, ValidateShareId(a).value);
    }
  }

  /* ----- what a ledger remembers of its journal ----- */

  /** How share records are checked; kept as a value so that its details stay out of the induction. */
  type Checker = Record -> Result<Checked>

  predicate Behind(chk: Checker, l: Ledger, id: Digest, r: Record)
    requires id in l.accepted
  {
    && IsShare(r.tag) && r.version == JOURNAL_VERSION
    && chk(r).Ok? && chk(r).value.id == id && chk(r).value.share == l.accepted[id]
    && ValidateCanonical32(r.jobId).Some? && ValidateCanonical32(r.jobId).value in l.usedJobs
  }

  /** `origin` gives the one record behind every accepted share. */
  ghost predicate LedgerInv(chk: Checker, read: set<Record>, l: Ledger, origin: map<Digest, Record>) {
    && origin.Keys == l.accepted.Keys
    && (forall id :: id in origin ==> origin[id] in read && Behind(chk, l, id, origin[id]))
    && (forall r :: r in read && IsShare(r.tag) ==>
        chk(r).Ok? && chk(r).value.id in origin && origin[chk(r).value.id] == r)
    && (forall k :: k in l.pending ==> k.shareId in l.accepted)
  }

  function NextOrigin(chk: Checker, origin: map<Digest, Record>, r: Record): map<Digest, Record> {
    if IsShare(r.tag) && chk(r).Ok? && chk(r).value.id !in origin then origin[chk(r).value.id := r] else origin
  }

  lemma {:induction false} StatusKeepsKeys(pending: map<WinnerKey, PendingStatus>, r: Record)
    requires ApplyWinnerStatus(pending, r).Ok?
    ensures ApplyWinnerStatus(pending, r).value.Keys <= pending.Keys
  {
  }

  /** The winners of a share carry its own identifier, at most one per chain. */
  predicate OwnWinners(c: Checked) {
    var es := c.winners.entries;
    && |es| <= 2
    && (forall i :: 0 <= i < |es| ==> es[i].0.shareId == c.id)
    && (|es| == 2 ==> es[0].0 == WinnerKey(c.id, Wcash) && es[1].0 == WinnerKey(c.id, Zcash))
  }

  /** Each chain contributes at most its own winner. */
  lemma {:induction false} PartsOwnWinner(check: BlockCheck, r: Record, id: Digest, parent: seq<byte>)
    ensures var w := WcashPart(check, r, id, parent);
            w.Ok? ==> w.value.0 == [] || (|w.value.0| == 1 && w.value.0[0].0 == WinnerKey(id, Wcash))
    ensures var z := ZcashPart(check, r, id, parent);
            z.Ok? ==> z.value.0 == [] || (|z.value.0| == 1 && z.value.0[0].0 == WinnerKey(id, Zcash))
  {
  }

  lemma {:induction false} ValidatedOwnWinners(check: BlockCheck, r: Record, id: Digest, share: ImmutableShare)
    requires ValidateWinnerBlocks(check, r, id).Ok?
    ensures OwnWinners(Checked(id, share, ValidateWinnerBlocks(check, r, id).value))
  {
    if !r.tag.AcceptedShare? {
      PartsOwnWinner(check, r, id, ValidateCanonical32(r.parentHashLe.value).value);
    }
  }

  lemma {:induction false} CheckedOwnWinners(ctx: Context, r: Record)
    requires CheckedShare(ctx, r).Ok?
    ensures OwnWinners(CheckedShare(ctx, r).value)
  {
    var c := CheckedShare(ctx, r).value;
    ValidatedOwnWinners(ctx.check, r, c.id, c.share);
  }

  lemma {:induction false} InsertWinnersKeys(
    pending: map<WinnerKey, PendingStatus>, es: seq<(WinnerKey, PendingStatus)>, id: Digest)
    requires InsertWinners(pending, es).Ok?
    requires forall i :: 0 <= i < |es| ==> es[i].0.shareId == id
    ensures forall k :: k in InsertWinners(pending, es).value ==> k in pending || k.shareId == id
    decreases |es|
  {
    if es == [] {
    } else {
      InsertWinnersKeys(pending[es[0].0 := es[0].1], es[1..], id);
    }
  }

  /** A new share: its record becomes the origin of its identifier. */
  lemma {:induction false} LedgerNewShare(
    chk: Checker, read: set<Record>, l: Ledger, l': Ledger, origin: map<Digest, Record>, r: Record, c: Checked)
    requires LedgerInv(chk, read, l, origin)
    requires IsShare(r.tag) && r.version == JOURNAL_VERSION && ValidateCanonical32(r.jobId).Some?
    requires chk(r) == Ok(c) && c.id !in l.accepted
    requires l'.accepted == l.accepted[c.id := c.share]
    requires l'.usedJobs == l.usedJobs + {ValidateCanonical32(r.jobId).value}
    requires forall k :: k in l'.pending ==> k in l.pending || k.shareId == c.id
    ensures LedgerInv(chk, read + {r}, l', origin[c.id := r])
  {
    var o' := origin[c.id := r];
    forall id | id in o' ensures o'[id] in read + {r} && Behind(chk, l', id, o'[id]) {
      if id != c.id { assert Behind(chk, l, id, origin[id]); }
    }
  }

  /** A copy of a known share changes nothing but the set of used jobs. */
  lemma {:induction false} LedgerKnownShare(
    chk: Checker, read: set<Record>, l: Ledger, l': Ledger, origin: map<Digest, Record>, r: Record, c: Checked)
    requires LedgerInv(chk, read, l, origin) && chk(r) == Ok(c)
    requires c.id in l.accepted && origin[c.id] == r
    requires l' == l.(usedJobs := l'.usedJobs) && l.usedJobs <= l'.usedJobs
    ensures LedgerInv(chk, read + {r}, l', origin)
  {
    forall id | id in origin ensures Behind(chk, l', id, origin[id]) {
      assert Behind(chk, l, id, origin[id]);
    }
  }

  lemma {:induction false} LedgerShareStep(
    chk: Checker, maxShares: nat, read: set<Record>, l: Ledger, origin: map<Digest, Record>, r: Record, c: Checked)
    requires LedgerInv(chk, read, l, origin)
    requires IsShare(r.tag) && r.version == JOURNAL_VERSION && ValidateCanonical32(r.jobId).Some?
    requires chk(r) == Ok(c) && OwnWinners(c)
    requires c.id in l.accepted && l.accepted[c.id] == c.share ==> origin[c.id] == r
    requires AccountChecked(maxShares, l, ValidateCanonical32(r.jobId).value, c).Ok?
    ensures LedgerInv(chk, read + {r}, AccountChecked(maxShares, l, ValidateCanonical32(r.jobId).value, c).value,
                      NextOrigin(chk, origin, r))
  {
    var l' := AccountChecked(maxShares, l, ValidateCanonical32(r.jobId).value, c).value;
    if c.id in l.accepted {
      LedgerKnownShare(chk, read, l, l', origin, r, c);
    } else {
      InsertWinnersKeys(l.pending, c.winners.entries, c.id);
      LedgerNewShare(chk, read, l, l', origin, r, c);
    }
  }

  lemma {:induction false} LedgerOtherStep(
    ctx: Context, chk: Checker, read: set<Record>, l: Ledger, origin: map<Digest, Record>, r: Record)
    requires LedgerInv(chk, read, l, origin) && !IsShare(r.tag) && AccountRecord(ctx, l, r).Ok?
    ensures LedgerInv(chk, read + {r}, AccountRecord(ctx, l, r).value, origin)
  {
    if IsStatus(r.tag) { StatusKeepsKeys(l.pending, r); }
  }

  function CheckerOf(ctx: Context): Checker { r => CheckedShare(ctx, r) }

  lemma {:induction false} LedgerStep(
    ctx: Context, read: set<Record>, l: Ledger, origin: map<Digest, Record>, r: Record)
    requires LedgerInv(CheckerOf(ctx), read, l, origin) && AccountRecord(ctx, l, r).Ok?
    ensures LedgerInv(CheckerOf(ctx), read + {r}, AccountRecord(ctx, l, r).value, NextOrigin(CheckerOf(ctx), origin, r))
  {
    var chk := CheckerOf(ctx);
    if IsShare(r.tag) {
      var c := CheckedShare(ctx, r).value;
      CheckedOwnWinners(ctx, r);
      if c.id in l.accepted && l.accepted[c.id] == c.share {
        assert Behind(chk, l, c.id, origin[c.id]);
        DuplicateIsExact(ctx, origin[c.id], r);
      }
      LedgerShareStep(chk, ctx.maxShares, read, l, origin, r, c);
    } else {
      LedgerOtherStep(ctx, chk, read, l, origin, r);
    }
  }

  /* ----- the replay loop follows the ledger ----- */

  predicate SameWinner(k: WinnerKey, a: PendingStatus, b: PendingWinner) {
    && b.key == k && a.jobId == b.jobId && a.blockHash == b.blockHashDisplay && a.height == b.height
    && a.observed == b.observedOnBestChain && a.conflicting == b.conflictingWitness
  }

  ghost predicate SamePending(a: map<WinnerKey, PendingStatus>, b: map<WinnerKey, PendingWinner>) {
    && a.Keys == b.Keys
    && forall k :: k in a ==> SameWinner(k, a[k], b[k])
  }

  /** The ledger and the replayed state denote the same jobs and the same pending winners. */
  ghost predicate Agree(l: Ledger, s: ReplayState) {
    s.seenJobIds == l.usedJobs && SamePending(l.pending, s.pending)
  }

  ghost predicate SameIdentities(identities: map<Digest, Digest>, origin: map<Digest, Record>) {
    && identities.Keys == (set id | id in origin && origin[id].tag.WinnerOutbox?)
    && forall id :: id in identities ==> identities[id] == ExactRecordFingerprint(origin[id])
  }

  lemma {:induction false} InsertGrows<K, V>(m: map<K, V>, k: K, v: V)
    requires k !in m
    ensures |m[k := v]| == |m| + 1
  {
    assert m[k := v].Keys == m.Keys + {k};
    assert |m[k := v].Keys| == |m[k := v]| && |m.Keys| == |m|;
  }

  lemma {:induction false} SameSize<K, V, W>(a: map<K, V>, b: map<K, W>)
    requires a.Keys == b.Keys
    ensures |a| == |b|
  {
    assert |a.Keys| == |a| && |b.Keys| == |b|;
  }

  lemma {:induction false} InsertFollows(
    a: map<WinnerKey, PendingStatus>, b: map<WinnerKey, PendingWinner>,
    es: seq<(WinnerKey, PendingStatus)>, ws: seq<PendingWinner>)
    requires SamePending(a, b) && |a| <= MAX_PENDING_WINNERS && |es| == |ws|
    requires forall i :: 0 <= i < |es| ==> SameWinner(es[i].0, es[i].1, ws[i])
    requires InsertWinners(a, es).Ok?
    ensures |InsertWinners(a, es).value| == |a| + |es|
    ensures InsertPending(b, ws).Ok? <==> |InsertWinners(a, es).value| <= MAX_PENDING_WINNERS
    ensures InsertPending(b, ws).Ok? ==> SamePending(InsertWinners(a, es).value, InsertPending(b, ws).value)
    decreases |es|
  {
    if es == [] {
    } else {
      var (k, v) := es[0];
      var a', b' := a[k := v], b[k := ws[0]];
      InsertGrows(a, k, v);
      SameSize(a, b);
      InsertSize(a', es[1..]);
      if |a'| <= MAX_PENDING_WINNERS {
        assert SamePending(a', b');
        InsertFollows(a', b', es[1..], ws[1..]);
      }
    }
  }

  lemma {:induction false} InsertSize(a: map<WinnerKey, PendingStatus>, es: seq<(WinnerKey, PendingStatus)>)
    requires InsertWinners(a, es).Ok?
    ensures |InsertWinners(a, es).value| == |a| + |es|
    decreases |es|
  {
    if es == [] {
    } else {
      InsertGrows(a, es[0].0, es[0].1);
      InsertSize(a[es[0].0 := es[0].1], es[1..]);
    }
  }

  /** A winner block that accounting validated is recovered by the coordinator with the same metadata. */
  lemma {:induction false} WinnerRecovered(
    check: BlockCheck, chain: Chain, id: Digest, jobId: string,
    hash: string, height: Option<u32>, text: Option<string>, parent: seq<byte>)
    requires ValidateWinnerBlock(check, chain, hash, height, text, parent).Ok?
    ensures PersistedWinner(check, chain, id, jobId, hash, height, text, parent)
         == Ok(PendingWinner(WinnerKey(id, chain), jobId, hash, height.value,
                             ValidateWinnerBlock(check, chain, hash, height, text, parent).value, false, false))
  {
    DecodedBlock(text);
  }

  lemma {:induction false} WinnersRecovered(check: BlockCheck, r: Record, id: Digest)
    requires r.tag.WinnerOutbox? && ValidateWinnerBlocks(check, r, id).Ok?
    ensures PersistedWinners(check, r, id).Ok?
    ensures var es, ws := ValidateWinnerBlocks(check, r, id).value.entries, PersistedWinners(check, r, id).value;
            && ws != [] && |es| == |ws|
            && forall i :: 0 <= i < |es| ==> SameWinner(es[i].0, es[i].1, ws[i])
  {
    CanonicalParsersAgree(r.parentHashLe.value);
    var parent := ValidateCanonical32(r.parentHashLe.value).value;
    if Candidate(r.wcashCandidate) {
      var hash := r.wcashBlockHash.value;
      CanonicalParsersAgree(hash);
      WinnerRecovered(check, Wcash, id, r.jobId, hash, r.wcashHeight, r.wcashBlock, parent);
    }
    if Candidate(r.zcashCandidate) {
      WinnerRecovered(check, Zcash, id, r.jobId, DisplayHash(parent), r.zcashHeight, r.zcashBlock, parent);
    }
  }

  lemma {:induction false} IdentitiesFollow(
    chk: Checker, identities: map<Digest, Digest>, origin: map<Digest, Record>, r: Record)
    requires SameIdentities(identities, origin) && IsShare(r.tag) && chk(r).Ok?
    ensures chk(r).value.id in origin || r.tag.AcceptedShare? ==>
              SameIdentities(identities, NextOrigin(chk, origin, r))
    ensures chk(r).value.id !in origin && r.tag.WinnerOutbox? ==>
              SameIdentities(identities[chk(r).value.id := ExactRecordFingerprint(r)], NextOrigin(chk, origin, r))
  {
  }

  ghost predicate Sim(l: Ledger, s: ReplayState, origin: map<Digest, Record>) {
    Agree(l, s) && SameIdentities(s.identities, origin)
  }

  /** The first copy of an outbox record. */
  lemma {:induction false} NewOutboxFollows(
    maxWinners: nat, l: Ledger, s: ReplayState, id: Digest, identity: Digest,
    es: seq<(WinnerKey, PendingStatus)>, ws: seq<PendingWinner>)
    requires SamePending(l.pending, s.pending) && |l.pending| <= MAX_PENDING_WINNERS
    requires id !in s.identities && |s.identities| < maxWinners
    requires ws != [] && |ws| == |es|
    requires forall i :: 0 <= i < |ws| ==> SameWinner(es[i].0, es[i].1, ws[i])
    requires InsertWinners(l.pending, es).Ok?
    ensures var s' := InsertOutbox(maxWinners, s, id, identity, Ok(ws));
            var p' := InsertWinners(l.pending, es).value;
            && (s'.Ok? <==> |p'| <= MAX_PENDING_WINNERS)
            && (s'.Ok? ==> s'.value.identities == s.identities[id := identity] && SamePending(p', s'.value.pending)
                           && s'.value.seenJobIds == s.seenJobIds)
  {
    InsertFollows(l.pending, s.pending, es, ws);
  }

  lemma {:induction false} OutboxFollows(
    chk: Checker, maxShares: nat, maxWinners: nat, l: Ledger, s: ReplayState, origin: map<Digest, Record>,
    jobId: seq<byte>, r: Record, c: Checked, winners: Result<seq<PendingWinner>>)
    requires Sim(l, s, origin) && origin.Keys == l.accepted.Keys && maxShares <= maxWinners
    requires |l.pending| <= MAX_PENDING_WINNERS
    requires r.tag.WinnerOutbox? && chk(r) == Ok(c)
    requires c.id in origin && l.accepted[c.id] == c.share ==> origin[c.id] == r
    requires winners.Ok? && winners.value != [] && |winners.value| == |c.winners.entries|
    requires forall i :: 0 <= i < |winners.value| ==>
               SameWinner(c.winners.entries[i].0, c.winners.entries[i].1, winners.value[i])
    requires AccountChecked(maxShares, l, jobId, c).Ok?
    ensures var l' := AccountChecked(maxShares, l, jobId, c).value;
            var s' := InsertOutbox(maxWinners, s.(seenJobIds := s.seenJobIds + {jobId}), c.id,
                                   ExactRecordFingerprint(r), winners);
            && (s'.Ok? <==> |l'.pending| <= MAX_PENDING_WINNERS)
            && (s'.Ok? ==> Sim(l', s'.value, NextOrigin(chk, origin, r)))
  {
    IdentitiesFollow(chk, s.identities, origin, r);
    if c.id !in origin {
      assert s.identities.Keys <= l.accepted.Keys;
      KeysBound(s.identities, l.accepted);
      NewOutboxFollows(maxWinners, l, s.(seenJobIds := s.seenJobIds + {jobId}), c.id, ExactRecordFingerprint(r),
                       c.winners.entries, winners.value);
    }
  }

  lemma {:induction false} KeysBound<K, V, W>(a: map<K, V>, b: map<K, W>)
    requires a.Keys <= b.Keys
    ensures |a| <= |b|
  {
    SubsetSize(a.Keys, b.Keys);
    assert |a| == |a.Keys| && |b| == |b.Keys|;
  }

  lemma {:induction false} SubsetSize<T>(a: set<T>, b: set<T>)
    requires a <= b
    ensures |a| <= |b|
  {
    if a != {} {
      var x :| x in a;
      SubsetSize(a - {x}, b - {x});
    }
  }

  lemma {:induction false} UpdateFollows(
    a: map<WinnerKey, PendingStatus>, b: map<WinnerKey, PendingWinner>, k: WinnerKey,
    p: PendingStatus, q: PendingWinner)
    requires SamePending(a, b) && k in a && SameWinner(k, p, q)
    ensures SamePending(a[k := p], b[k := q])
  {
  }

  lemma {:induction false} RemoveFollows(
    a: map<WinnerKey, PendingStatus>, b: map<WinnerKey, PendingWinner>, k: WinnerKey)
    requires SamePending(a, b)
    ensures SamePending(a - {k}, b - {k})
  {
  }

  /** A transition that accounting allows is one that the replay allows, with the same flags. */
  lemma {:induction false} FlagsFollow(tag: Tag, k: WinnerKey, p: PendingStatus, q: PendingWinner)
    requires SameWinner(k, p, q) && EffectOf(tag, k.chain, p).Ok?
    ensures FlagsAfter(tag, k.chain, q) ==
            match EffectOf(tag, k.chain, p).value case Becomes(o, c) => Ok(Some((o, c))) case Removed => Ok(None)
  {
  }

  lemma {:induction false} StatusFollows(a: map<WinnerKey, PendingStatus>, b: map<WinnerKey, PendingWinner>, r: Record)
    requires SamePending(a, b) && ApplyWinnerStatus(a, r).Ok?
    ensures ReplayStatus(b, r).Ok? && SamePending(ApplyWinnerStatus(a, r).value, ReplayStatus(b, r).value)
  {
    var k := WinnerKey(r.shareId.value.digest, ParseChain(r.chain).value);
    var p, q := a[k], b[k];
    assert SameWinner(k, p, q);
    assert EqIgnoreAsciiCase(q.blockHashDisplay, r.blockHash.value);
    FlagsFollow(r.tag, k, p, q);
    match EffectOf(r.tag, k.chain, p).value
    case Becomes(o, c) =>
      UpdateFollows(a, b, k, p.(observed := o, conflicting := c),
                    q.(observedOnBestChain := o, conflictingWitness := c));
    case Removed => RemoveFollows(a, b, k);
  }

  lemma {:induction false} ActivationFollows(
    ctx: Context, l: Ledger, s: ReplayState, origin: map<Digest, Record>, r: Record)
    requires Sim(l, s, origin) && r.tag.JobActivated? && AccountRecord(ctx, l, r).Ok?
    ensures ReplayRecord(ctx, s, r).Ok? && Sim(AccountRecord(ctx, l, r).value, ReplayRecord(ctx, s, r).value, origin)
  {
    CanonicalParsersAgree(r.jobId);
    CanonicalParsersAgree(r.wcashBlockHash.value);
  }

  /** What both interpreters take from a share that passed the accounting checks. */
  lemma {:induction false} CheckedFacts(ctx: Context, r: Record)
    requires IsShare(r.tag) && CheckedShare(ctx, r).Ok?
    ensures var c := CheckedShare(ctx, r).value;
            && RequiredShareId(r) == Ok(c.id)
            && (r.tag.AcceptedShare? ==> c.winners.entries == [])
            && ValidateWinnerBlocks(ctx.check, r, c.id) == Ok(c.winners)
  {
  }

  lemma {:induction false} SameOrigin(
    ctx: Context, read: set<Record>, l: Ledger, origin: map<Digest, Record>, r: Record)
    requires LedgerInv(CheckerOf(ctx), read, l, origin) && r.version == JOURNAL_VERSION
    requires IsShare(r.tag) && CheckedShare(ctx, r).Ok?
    ensures var c := CheckedShare(ctx, r).value;
            c.id in origin && l.accepted[c.id] == c.share ==> origin[c.id] == r
  {
    var c := CheckedShare(ctx, r).value;
    if c.id in origin && l.accepted[c.id] == c.share {
      assert Behind(CheckerOf(ctx), l, c.id, origin[c.id]);
      DuplicateIsExact(ctx, origin[c.id], r);
    }
  }

  lemma {:induction false} ShareFollows(
    ctx: Context, read: set<Record>, l: Ledger, s: ReplayState, origin: map<Digest, Record>, r: Record)
    requires LedgerInv(CheckerOf(ctx), read, l, origin) && Sim(l, s, origin)
    requires |l.pending| <= MAX_PENDING_WINNERS && ctx.maxShares <= ctx.maxWinnerShares
    requires IsShare(r.tag) && AccountRecord(ctx, l, r).Ok?
    ensures ReplayRecord(ctx, s, r).Ok? <==> |AccountRecord(ctx, l, r).value.pending| <= MAX_PENDING_WINNERS
    ensures ReplayRecord(ctx, s, r).Ok? ==>
              Sim(AccountRecord(ctx, l, r).value, ReplayRecord(ctx, s, r).value, NextOrigin(CheckerOf(ctx), origin, r))
  {
    var chk, c, jobId := CheckerOf(ctx), CheckedShare(ctx, r).value, ValidateCanonical32(r.jobId).value;
    CanonicalParsersAgree(r.jobId);
    CheckedFacts(ctx, r);
    SameOrigin(ctx, read, l, origin, r);
    assert AccountRecord(ctx, l, r) == AccountChecked(ctx.maxShares, l, jobId, c);
    if r.tag.WinnerOutbox? {
      WinnersRecovered(ctx.check, r, c.id);
      OutboxFollows(chk, ctx.maxShares, ctx.maxWinnerShares, l, s, origin, jobId, r, c,
                    PersistedWinners(ctx.check, r, c.id));
      assert InsertSeen(s.seenJobIds, jobId) == Ok(s.seenJobIds + {jobId});
      assert ReplayRecord(ctx, s, r) == ReplayOutbox(ctx, s, jobId, r);
    } else {
      PlainShareFollows(chk, ctx.maxShares, l, s, origin, jobId, r, c);
      assert ReplayRecord(ctx, s, r) == Ok(s.(seenJobIds := s.seenJobIds + {jobId}));
    }
  }

  lemma {:induction false} PlainShareFollows(
    chk: Checker, maxShares: nat, l: Ledger, s: ReplayState, origin: map<Digest, Record>,
    jobId: seq<byte>, r: Record, c: Checked)
    requires Sim(l, s, origin) && r.tag.AcceptedShare? && chk(r) == Ok(c) && c.winners.entries == []
    requires AccountChecked(maxShares, l, jobId, c).Ok?
    ensures AccountChecked(maxShares, l, jobId, c).value.pending == l.pending
    ensures InsertSeen(s.seenJobIds, jobId) == Ok(s.seenJobIds + {jobId})
    ensures Sim(AccountChecked(maxShares, l, jobId, c).value, s.(seenJobIds := s.seenJobIds + {jobId}),
                NextOrigin(chk, origin, r))
  {
    IdentitiesFollow(chk, s.identities, origin, r);
  }

  /* ----- whole journals ----- */

  /** The first record of every accepted share of a journal. */
  function OriginOf(ctx: Context, rs: seq<Record>): map<Digest, Record> {
    if rs == [] then map[]
    else NextOrigin(CheckerOf(ctx), OriginOf(ctx, rs[..|rs| - 1]), rs[|rs| - 1])
  }

  function RecordsOf(rs: seq<Record>): set<Record> {
    if rs == [] then {} else RecordsOf(rs[..|rs| - 1]) + {rs[|rs| - 1]}
  }

  lemma {:induction false} RecordsOfAll(rs: seq<Record>)
    ensures forall r :: r in rs <==> r in RecordsOf(rs)
  {
    if rs == [] {
    } else {
      var n := |rs| - 1;
      RecordsOfAll(rs[..n]);
      assert rs == rs[..n] + [rs[n]];
    }
  }

  lemma {:induction false} LedgerRemembers(ctx: Context, rs: seq<Record>)
    requires AccountAll(ctx, rs).Ok?
    ensures LedgerInv(CheckerOf(ctx), RecordsOf(rs), AccountAll(ctx, rs).value, OriginOf(ctx, rs))
  {
    if rs == [] {
    } else {
      var n := |rs| - 1;
      var l, origin := AccountAll(ctx, rs[..n]).value, OriginOf(ctx, rs[..n]);
      LedgerRemembers(ctx, rs[..n]);
      LedgerStep(ctx, RecordsOf(rs[..n]), l, origin, rs[n]);
      assert AccountAll(ctx, rs) == AccountRecord(ctx, l, rs[n]);
      assert OriginOf(ctx, rs) == NextOrigin(CheckerOf(ctx), origin, rs[n]);
    }
  }

  function PendingCount(ctx: Context, rs: seq<Record>): nat {
    match AccountAll(ctx, rs) case Ok(l) => |l.pending| case Err => 0
  }

  predicate AlwaysAtMost(f: seq<Record> -> nat, rs: seq<Record>, bound: nat) {
    forall n :: 0 <= n <= |rs| ==> f(rs[..n]) <= bound
  }

  lemma {:induction false} AlwaysAtMostSnoc(f: seq<Record> -> nat, rs: seq<Record>, bound: nat)
    requires rs != []
    ensures AlwaysAtMost(f, rs, bound) <==> AlwaysAtMost(f, rs[..|rs| - 1], bound) && f(rs) <= bound
  {
    var m := |rs| - 1;
    assert rs[..|rs|] == rs;
    assert forall n :: 0 <= n <= m ==> rs[..m][..n] == rs[..n];
  }

  function CountOf(ctx: Context): seq<Record> -> nat { rs => PendingCount(ctx, rs) }

  /** At no point of the journal were more winners pending than the outbox may hold. */
  predicate PendingBounded(ctx: Context, rs: seq<Record>) {
    rs == [] || (PendingBounded(ctx, rs[..|rs| - 1]) && PendingCount(ctx, rs) <= MAX_PENDING_WINNERS)
  }

  lemma {:induction false} PendingBoundedAlways(ctx: Context, rs: seq<Record>)
    ensures PendingBounded(ctx, rs) <==> AlwaysAtMost(CountOf(ctx), rs, MAX_PENDING_WINNERS)
  {
    if rs == [] {
      assert rs[..0] == [];
    } else {
      PendingBoundedAlways(ctx, rs[..|rs| - 1]);
      AlwaysAtMostSnoc(CountOf(ctx), rs, MAX_PENDING_WINNERS);
    }
  }

  lemma {:induction false} RecordFollows(
    ctx: Context, read: set<Record>, l: Ledger, s: ReplayState, origin: map<Digest, Record>, r: Record)
    requires LedgerInv(CheckerOf(ctx), read, l, origin) && Sim(l, s, origin)
    requires |l.pending| <= MAX_PENDING_WINNERS && ctx.maxShares <= ctx.maxWinnerShares
    requires AccountRecord(ctx, l, r).Ok?
    ensures ReplayRecord(ctx, s, r).Ok? <==> |AccountRecord(ctx, l, r).value.pending| <= MAX_PENDING_WINNERS
    ensures ReplayRecord(ctx, s, r).Ok? ==>
              Sim(AccountRecord(ctx, l, r).value, ReplayRecord(ctx, s, r).value, NextOrigin(CheckerOf(ctx), origin, r))
  {
    if IsShare(r.tag) {
      ShareFollows(ctx, read, l, s, origin, r);
    } else if r.tag.JobActivated? {
      ActivationFollows(ctx, l, s, origin, r);
    } else {
      CanonicalParsersAgree(r.jobId);
      StatusFollows(l.pending, s.pending, r);
      StatusKeepsKeys(l.pending, r);
      KeysBound(ApplyWinnerStatus(l.pending, r).value, l.pending);
    }
  }

  lemma {:induction false} ReplayFollows(ctx: Context, rs: seq<Record>)
    requires AccountAll(ctx, rs).Ok? && ctx.maxShares <= ctx.maxWinnerShares
    ensures ReplayAll(ctx, rs).Ok? <==> PendingBounded(ctx, rs)
    ensures ReplayAll(ctx, rs).Ok? ==> Sim(AccountAll(ctx, rs).value, ReplayAll(ctx, rs).value, OriginOf(ctx, rs))
  {
    if rs == [] {
    } else {
      var n := |rs| - 1;
      ReplayFollows(ctx, rs[..n]);
      if ReplayAll(ctx, rs[..n]).Ok? {
        LedgerRemembers(ctx, rs[..n]);
        RecordFollows(ctx, RecordsOf(rs[..n]), AccountAll(ctx, rs[..n]).value, ReplayAll(ctx, rs[..n]).value,
                      OriginOf(ctx, rs[..n]), rs[n]);
      }
    }
  }

  /**
   Two-parser agreement.  On every journal that accounting accepts, the coordinator's replay
   succeeds exactly when the outbox was never over-full, and it then holds the same seen jobs
   and the same pending winners: key, job, hash, height, observed and conflicting.
   */
  lemma {:induction false} TwoParserAgreement(ctx: Context, rs: seq<Record>)
    requires AccountAll(ctx, rs).Ok? && ctx.maxShares <= ctx.maxWinnerShares
    ensures ReplayAll(ctx, rs).Ok? <==> PendingBounded(ctx, rs)
    ensures ReplayAll(ctx, rs).Ok? <==> AlwaysAtMost(CountOf(ctx), rs, MAX_PENDING_WINNERS)
    ensures ReplayAll(ctx, rs).Ok? ==> Agree(AccountAll(ctx, rs).value, ReplayAll(ctx, rs).value)
  {
    PendingBoundedAlways(ctx, rs);
    ReplayFollows(ctx, rs);
  }

  /** A copy of an earlier share record, appended to any accepted journal, changes no accounting state. */
  lemma {:induction false} DuplicateShareIsIdle(ctx: Context, rs: seq<Record>, r: Record)
    requires AccountAll(ctx, rs).Ok? && r in rs && IsShare(r.tag)
    ensures AccountAll(ctx, rs + [r]) == AccountAll(ctx, rs)
  {
    var l, chk := AccountAll(ctx, rs).value, CheckerOf(ctx);
    RecordsOfAll(rs);
    LedgerRemembers(ctx, rs);
    var c := chk(r).value;
    assert Behind(chk, l, c.id, r);
    DuplicateStep(ctx, l, r);
    assert (rs + [r])[..|rs|] == rs;
  }

  lemma {:induction false} DuplicateStep(ctx: Context, l: Ledger, r: Record)
    requires CheckerOf(ctx)(r).Ok? && CheckerOf(ctx)(r).value.id in l.accepted
    requires Behind(CheckerOf(ctx), l, CheckerOf(ctx)(r).value.id, r)
    ensures AccountRecord(ctx, l, r) == Ok(l)
  {
    var c, jobId := CheckedShare(ctx, r).value, ValidateCanonical32(r.jobId).value;
    assert l.usedJobs + {jobId} == l.usedJobs;
    assert AccountRecord(ctx, l, r) == AccountChecked(ctx.maxShares, l, jobId, c);
  }

  /** The same for the coordinator's replay: a winner that matured in between stays gone. */
  lemma {:induction false} DuplicateShareResurrectsNothing(ctx: Context, rs: seq<Record>, r: Record)
    requires AccountAll(ctx, rs).Ok? && ctx.maxShares <= ctx.maxWinnerShares
    requires ReplayAll(ctx, rs).Ok? && r in rs && IsShare(r.tag)
    ensures ReplayAll(ctx, rs + [r]) == ReplayAll(ctx, rs)
  {
    var l, s, chk, origin := AccountAll(ctx, rs).value, ReplayAll(ctx, rs).value, CheckerOf(ctx), OriginOf(ctx, rs);
    RecordsOfAll(rs);
    LedgerRemembers(ctx, rs);
    ReplayFollows(ctx, rs);
    var c := chk(r).value;
    assert Behind(chk, l, c.id, r);
    CanonicalParsersAgree(r.jobId);
    CheckedFacts(ctx, r);
    DuplicateReplayStep(ctx, s, c.id, r);
    assert (rs + [r])[..|rs|] == rs;
  }

  lemma {:induction false} DuplicateReplayStep(ctx: Context, s: ReplayState, id: Digest, r: Record)
    requires IsShare(r.tag) && r.version == JOURNAL_VERSION && RequiredShareId(r) == Ok(id)
    requires ParseCanonicalId(r.jobId).Some? && ParseCanonicalId(r.jobId).value in s.seenJobIds
    requires r.tag.WinnerOutbox? ==> id in s.identities && s.identities[id] == ExactRecordFingerprint(r)
    ensures ReplayRecord(ctx, s, r) == Ok(s)
  {
    assert s.seenJobIds + {ParseCanonicalId(r.jobId).value} == s.seenJobIds;
  }
}
