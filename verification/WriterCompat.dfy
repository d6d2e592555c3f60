/**
 Writer and readers are compatible: every record that the live writer decides to append is one
 that both interpreters accept in that state, exactly when its timestamp is positive and its
 blocks pass validation.
 */
module WriterCompat {
  import opened Common
  import opened Hex
  import opened JournalRecord
  import opened Accounting
  import opened Replay
  import opened Agreement
  import opened JournalModel

  /* ----- pending winners stay well formed ----- */

  /** A pending winner is never both observed and quarantined, and its metadata is canonical. */
  predicate GoodStatus(p: PendingStatus) {
    && !(p.observed && p.conflicting)
    && ValidateCanonical32(p.jobId).Some? && ValidateCanonical32(p.blockHash).Some? && p.height > 0
  }

  ghost predicate GoodPending(pending: map<WinnerKey, PendingStatus>) {
    forall k :: k in pending ==> GoodStatus(pending[k]) && (pending[k].conflicting ==> k.chain == Wcash)
  }

  lemma {:induction false} EncodedIsCanonical(b: seq<byte>)
    requires |b| == 32
    ensures ValidateCanonical32(HexEncode(b)) == Some(b)
    ensures ParseRawHash(HexEncode(b)) == Some(b)
  {
    DecodeEncode(b);
  }

  predicate FreshEntry(e: (WinnerKey, PendingStatus)) { GoodStatus(e.1) && !e.1.conflicting }

  lemma {:induction false} GoodParts(check: BlockCheck, r: Record, id: Digest, parent: seq<byte>)
    requires ValidateCanonical32(r.jobId).Some? && |parent| == 32
    ensures WcashPart(check, r, id, parent).Ok? && WcashPart(check, r, id, parent).value.0 != [] ==>
              FreshEntry(WcashPart(check, r, id, parent).value.0[0])
    ensures ZcashPart(check, r, id, parent).Ok? && ZcashPart(check, r, id, parent).value.0 != [] ==>
              FreshEntry(ZcashPart(check, r, id, parent).value.0[0])
  {
    EncodedIsCanonical(Reversed(parent));
  }

  lemma {:induction false} GoodEntries(check: BlockCheck, r: Record, id: Digest)
    requires ValidateWinnerBlocks(check, r, id).Ok? && ValidateCanonical32(r.jobId).Some?
    ensures forall i :: 0 <= i < |ValidateWinnerBlocks(check, r, id).value.entries| ==>
              FreshEntry(ValidateWinnerBlocks(check, r, id).value.entries[i])
  {
    if !r.tag.AcceptedShare? {
      var parent := ValidateCanonical32(r.parentHashLe.value).value;
      GoodParts(check, r, id, parent);
    }
  }

  lemma {:induction false} InsertGood(
    pending: map<WinnerKey, PendingStatus>, es: seq<(WinnerKey, PendingStatus)>)
    requires GoodPending(pending) && InsertWinners(pending, es).Ok?
    requires forall i :: 0 <= i < |es| ==> FreshEntry(es[i])
    ensures GoodPending(InsertWinners(pending, es).value)
    decreases |es|
  {
    if es == [] {
    } else {
      InsertGood(pending[es[0].0 := es[0].1], es[1..]);
    }
  }

  lemma {:induction false} FlagsGood(pending: map<WinnerKey, PendingStatus>, key: WinnerKey, o: bool, c: bool)
    requires GoodPending(pending) && key in pending && !(o && c) && (c ==> key.chain == Wcash)
    ensures GoodPending(pending[key := pending[key].(observed := o, conflicting := c)])
  {
    var p := pending[key].(observed := o, conflicting := c);
    assert GoodStatus(p);
  }

  lemma {:induction false} EffectGood(tag: Tag, chain: Chain, p: PendingStatus, o: bool, c: bool)
    requires EffectOf(tag, chain, p) == Ok(Becomes(o, c))
    ensures !(o && c) && (c ==> chain == Wcash)
  {
  }

  /** What a status record leaves of the pending map, without its field checks. */
  lemma {:induction false} StatusOutcome(pending: map<WinnerKey, PendingStatus>, r: Record) returns (key: WinnerKey)
    requires ApplyWinnerStatus(pending, r).Ok?
    ensures key in pending && EffectOf(r.tag, key.chain, pending[key]).Ok?
    ensures ApplyWinnerStatus(pending, r).value ==
            match EffectOf(r.tag, key.chain, pending[key]).value
            case Becomes(o, c) => pending[key := pending[key].(observed := o, conflicting := c)]
            case Removed => pending - {key}
  {
    key := WinnerKey(r.shareId.value.digest, ParseChain(r.chain).value);
  }

  lemma {:induction false} StatusGood(pending: map<WinnerKey, PendingStatus>, r: Record)
    requires GoodPending(pending) && ApplyWinnerStatus(pending, r).Ok?
    ensures GoodPending(ApplyWinnerStatus(pending, r).value)
  {
    var key := StatusOutcome(pending, r);
    match EffectOf(r.tag, key.chain, pending[key]).value
    case Becomes(o, c) => EffectGood(r.tag, key.chain, pending[key], o, c); FlagsGood(pending, key, o, c);
    case Removed => RemoveGood(pending, key);
  }

  lemma {:induction false} RemoveGood(pending: map<WinnerKey, PendingStatus>, key: WinnerKey)
    requires GoodPending(pending)
    ensures GoodPending(pending - {key})
  {
  }

  lemma {:induction false} GoodChecked(maxShares: nat, l: Ledger, jobId: seq<byte>, c: Checked)
    requires GoodPending(l.pending) && AccountChecked(maxShares, l, jobId, c).Ok?
    requires forall i :: 0 <= i < |c.winners.entries| ==> FreshEntry(c.winners.entries[i])
    ensures GoodPending(AccountChecked(maxShares, l, jobId, c).value.pending)
  {
    if c.id !in l.accepted { InsertGood(l.pending, c.winners.entries); }
  }

  /** In every accepted journal, observed and conflicting never hold of one winner together. */
  lemma {:induction false} PendingAlwaysGood(ctx: Context, rs: seq<Record>)
    requires AccountAll(ctx, rs).Ok?
    ensures GoodPending(AccountAll(ctx, rs).value.pending)
  {
    if rs == [] {
    } else {
      var n := |rs| - 1;
      var l, r := AccountAll(ctx, rs[..n]).value, rs[n];
      PendingAlwaysGood(ctx, rs[..n]);
      if IsShare(r.tag) {
        var c := CheckedShare(ctx, r).value;
        GoodEntries(ctx.check, r, c.id);
        GoodChecked(ctx.maxShares, l, ValidateCanonical32(r.jobId).value, c);
      } else if IsStatus(r.tag) {
        StatusGood(l.pending, r);
      }
    }
  }

  /* ----- limits only bind when they are reached ----- */

  lemma {:induction false} AcceptedGrows(ctx: Context, l: Ledger, r: Record)
    requires AccountRecord(ctx, l, r).Ok?
    ensures |l.accepted| <= |AccountRecord(ctx, l, r).value.accepted|
  {
    if IsShare(r.tag) {
      AcceptedGrowsChecked(ctx.maxShares, l, ValidateCanonical32(r.jobId).value, CheckedShare(ctx, r).value);
    }
  }

  lemma {:induction false} AcceptedGrowsChecked(maxShares: nat, l: Ledger, jobId: seq<byte>, c: Checked)
    requires AccountChecked(maxShares, l, jobId, c).Ok?
    ensures |AccountChecked(maxShares, l, jobId, c).value.accepted|
         == |l.accepted| + if c.id in l.accepted then 0 else 1
  {
    if c.id !in l.accepted { InsertGrows(l.accepted, c.id, c.share); }
  }

  lemma {:induction false} CheckedIgnoresLimits(a: Context, b: Context, r: Record)
    requires a.check == b.check
    ensures CheckedShare(a, r) == CheckedShare(b, r)
  {
  }

  lemma {:induction false} LimitStep(a: Context, b: Context, l: Ledger, r: Record)
    requires a.check == b.check && AccountRecord(a, l, r).Ok?
    requires |AccountRecord(a, l, r).value.accepted| <= b.maxShares
    ensures AccountRecord(b, l, r) == AccountRecord(a, l, r)
  {
    if IsShare(r.tag) {
      CheckedIgnoresLimits(a, b, r);
      var c, jobId := CheckedShare(a, r).value, ValidateCanonical32(r.jobId).value;
      LimitChecked(a.maxShares, b.maxShares, l, jobId, c);
    }
  }

  lemma {:induction false} LimitChecked(a: nat, b: nat, l: Ledger, jobId: seq<byte>, c: Checked)
    requires AccountChecked(a, l, jobId, c).Ok? && |AccountChecked(a, l, jobId, c).value.accepted| <= b
    ensures AccountChecked(b, l, jobId, c) == AccountChecked(a, l, jobId, c)
  {
    AcceptedGrowsChecked(a, l, jobId, c);
  }

  /** Accounting under another share limit gives the same ledger, as long as the ledger fits it. */
  lemma {:induction false} LimitIrrelevant(a: Context, b: Context, rs: seq<Record>)
    requires a.check == b.check && AccountAll(a, rs).Ok?
    requires |AccountAll(a, rs).value.accepted| <= b.maxShares
    ensures AccountAll(b, rs) == AccountAll(a, rs)
  {
    if rs == [] {
    } else {
      var n := |rs| - 1;
      var l := AccountAll(a, rs[..n]).value;
      AcceptedGrows(a, l, rs[n]);
      LimitIrrelevant(a, b, rs[..n]);
      LimitStep(a, b, l, rs[n]);
    }
  }

  lemma {:induction false} ReplayLimitStep(a: Context, b: Context, s: ReplayState, r: Record)
    requires a.check == b.check && ReplayRecord(a, s, r).Ok?
    ensures |s.identities| <= |ReplayRecord(a, s, r).value.identities|
    ensures |ReplayRecord(a, s, r).value.identities| <= b.maxWinnerShares ==>
              ReplayRecord(b, s, r) == ReplayRecord(a, s, r)
  {
    if r.tag.WinnerOutbox? && RequiredShareId(r).value !in s.identities {
      InsertGrows(s.identities, RequiredShareId(r).value, ExactRecordFingerprint(r));
    }
  }

  lemma {:induction false} ReplayLimitIrrelevant(a: Context, b: Context, rs: seq<Record>)
    requires a.check == b.check && ReplayAll(a, rs).Ok?
    requires |ReplayAll(a, rs).value.identities| <= b.maxWinnerShares
    ensures ReplayAll(b, rs) == ReplayAll(a, rs)
  {
    if rs == [] {
    } else {
      var n := |rs| - 1;
      ReplayLimitStep(a, b, ReplayAll(a, rs[..n]).value, rs[n]);
      ReplayLimitIrrelevant(a, b, rs[..n]);
    }
  }
}
