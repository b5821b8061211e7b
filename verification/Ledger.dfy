/** The append-only, hash-chained audit ledger. */
module Ledger {
  import opened MemoryModel

  datatype Action =
    | ActIngest | ActPromote | ActReaffirm | ActDemote | ActReject
    | ActRevoke | ActExpire | ActStage | ActActivate

  /** The JSON object stored with an entry, one constructor per shape the store writes. */
  datatype Detail =
    | EmptyDetail
    | IngestDetail(tier: Tier, evidence: string, sensitivity: Sensitivity)
    | PromoteDetail(verdict: string, confirmations: int)
    | ReaffirmDetail(strong: bool, ceiling: real, count: int, interval: Option<real>)
    | ReasonDetail(reason: string)
    | SourceDetail(uri: string)
    | StageDetail(fingerprint: string, evidence: string)

  /** A row of `memory_ledger`; the `detail` column may be NULL. */
  datatype Entry = Entry(
    prevHash: string, entryHash: string,
    action: Action, item: Option<Id>, detail: Option<Detail>, at: Time)

  /** The part of an entry that is serialised and hashed. */
  datatype Body = Body(action: Action, item: Option<Id>, detail: Detail, at: Time)

  /** SHA-256 in hex, and JSON with sorted keys: both arbitrary functions. */
  datatype Hasher = Hasher(digest: string -> string, encode: Body -> string)

  const HASH_LENGTH := 64

  /** Sixty-four zeros. */
  function Genesis(): (g: string)
    ensures |g| == 64 && forall i :: 0 <= i < 64 ==> g[i] == '0'
  { seq(HASH_LENGTH, _ => '0') }

  function BodyOf(e: Entry): Body {
    Body(e.action, e.item, if e.detail.Some? then e.detail.value else EmptyDetail, e.at)
  }

  function Preimage(h: Hasher, prev: string, b: Body): string { prev + h.encode(b) }

  function Head(es: seq<Entry>): string {
    if |es| == 0 then Genesis() else es[|es| - 1].entryHash
  }

  function Chained(h: Hasher, es: seq<Entry>, b: Body): Entry {
    Entry(Head(es), h.digest(Preimage(h, Head(es), b)), b.action, b.item, Some(b.detail), b.at)
  }

  ghost predicate Linked(h: Hasher, prev: string, e: Entry) {
    e.prevHash == prev && e.entryHash == h.digest(Preimage(h, prev, BodyOf(e)))
  }

  /** What an intact chain is: every entry links to the one before it. */
  ghost predicate Intact(h: Hasher, es: seq<Entry>) {
    forall i :: 0 <= i < |es| ==> Linked(h, Head(es[..i]), es[i])
  }

  /** The verification pass over the table decides exactly Intact. */
  method Verify(h: Hasher, es: seq<Entry>) returns (ok: bool)
    ensures ok <==> Intact(h, es)
  {
    hide Head, BodyOf, Genesis;
    var prev := Genesis();
    HeadFirst(es);
    for i := 0 to |es|
      invariant prev == Head(es[..i])
      invariant forall j :: 0 <= j < i ==> Linked(h, Head(es[..j]), es[j])
    {
      var expected := h.digest(Preimage(h, prev, BodyOf(es[i])));
      if es[i].prevHash != prev || es[i].entryHash != expected {
        assert !Linked(h, Head(es[..i]), es[i]);
        return false;
      }
      prev := es[i].entryHash;
      HeadNext(es, i);
    }
    return true;
  }

  lemma HeadFirst(es: seq<Entry>)
    ensures Head(es[..0]) == Genesis()
  {
  }

  lemma HeadNext(es: seq<Entry>, i: nat)
    requires i < |es|
    ensures Head(es[..i + 1]) == es[i].entryHash
  {
  }

  /** The head is not anchored outside the table: every truncation of an intact ledger verifies too. */
  lemma TruncationVerifies(h: Hasher, es: seq<Entry>, n: nat)
    requires Intact(h, es) && n <= |es|
    ensures Intact(h, es[..n])
  {
    forall i | 0 <= i < n ensures Linked(h, Head(es[..n][..i]), es[..n][i]) {
      assert es[..n][..i] == es[..i];
    }
  }

  /** Appending through the head keeps the chain intact, whatever is written. */
  lemma IntactAppend(h: Hasher, es: seq<Entry>, b: Body)
    requires Intact(h, es)
    ensures Intact(h, es + [Chained(h, es, b)])
  {
    var es' := es + [Chained(h, es, b)];
    forall i | 0 <= i < |es'| ensures Linked(h, Head(es'[..i]), es'[i]) {
      assert es'[..i] == es[..i];
      assert es[..|es|] == es;
    }
  }

  /** Every string the chain feeds to the hash. */
  ghost predicate IsPreimage(h: Hasher, es: seq<Entry>, x: string) {
    exists i :: 0 <= i < |es| && x == Preimage(h, Head(es[..i]), BodyOf(es[i]))
  }

  /** Two different hashed strings with one digest, or a hashed string whose digest is the genesis value. */
  ghost predicate HashBroken(h: Hasher, a: seq<Entry>, b: seq<Entry>) {
    || (exists x, y :: IsPreimage(h, a, x) && IsPreimage(h, b, y) && x != y && h.digest(x) == h.digest(y))
    || (exists x :: (IsPreimage(h, a, x) || IsPreimage(h, b, x)) && h.digest(x) == Genesis())
  }

  /** Serialisation keeps apart any two different bodies of the two ledgers. */
  ghost predicate EncodesFaithfully(h: Hasher, a: seq<Entry>, b: seq<Entry>) {
    forall i, j :: 0 <= i < |a| && 0 <= j < |b| && h.encode(BodyOf(a[i])) == h.encode(BodyOf(b[j]))
                   ==> BodyOf(a[i]) == BodyOf(b[j])
  }

  /** The same action on the same item at the same time, a missing detail being the empty one, with the same hash. */
  predicate SameEntry(a: Entry, b: Entry) {
    && a.action == b.action && a.item == b.item && a.at == b.at && a.entryHash == b.entryHash
    && (a.detail == b.detail || (a.detail in {None, Some(EmptyDetail)} && b.detail in {None, Some(EmptyDetail)}))
  }

  ghost predicate SameRecord(a: seq<Entry>, b: seq<Entry>) {
    && |a| == |b|
    && forall i :: 0 <= i < |a| ==> SameEntry(a[i], b[i])
  }

  lemma HeadLength(h: Hasher, es: seq<Entry>)
    requires Intact(h, es) && forall x :: |h.digest(x)| == HASH_LENGTH
    ensures |Head(es)| == HASH_LENGTH
  {
  }

  lemma PreimageOfPrefix(h: Hasher, es: seq<Entry>, n: nat, x: string)
    requires n <= |es| && IsPreimage(h, es[..n], x)
    ensures IsPreimage(h, es, x)
  {
    var i :| 0 <= i < n && x == Preimage(h, Head(es[..n][..i]), BodyOf(es[..n][i]));
    assert es[..n][..i] == es[..i];
  }

  lemma SoundInPrefix(h: Hasher, a: seq<Entry>, b: seq<Entry>, m: nat, n: nat)
    requires m <= |a| && n <= |b| && EncodesFaithfully(h, a, b) && !HashBroken(h, a, b)
    ensures EncodesFaithfully(h, a[..m], b[..n]) && !HashBroken(h, a[..m], b[..n])
  {
    forall x | IsPreimage(h, a[..m], x) ensures IsPreimage(h, a, x) {
      PreimageOfPrefix(h, a, m, x);
    }
    forall x | IsPreimage(h, b[..n], x) ensures IsPreimage(h, b, x) {
      PreimageOfPrefix(h, b, n, x);
    }
  }

  lemma LastPreimage(h: Hasher, es: seq<Entry>)
    requires Intact(h, es) && |es| > 0
    ensures var x := Preimage(h, Head(es[..|es| - 1]), BodyOf(es[|es| - 1]));
            IsPreimage(h, es, x) && h.digest(x) == Head(es)
  {
  }

  /**
   * Equal heads of nonempty intact ledgers: the last entries and the heads before them agree, or the hash
   * is broken.
   */
  lemma LastEntryBound(h: Hasher, a: seq<Entry>, b: seq<Entry>)
    requires forall x :: |h.digest(x)| == HASH_LENGTH
    requires Intact(h, a) && Intact(h, b) && EncodesFaithfully(h, a, b) && !HashBroken(h, a, b)
    requires |a| > 0 && |b| > 0 && Head(a) == Head(b)
    ensures BodyOf(a[|a| - 1]) == BodyOf(b[|b| - 1]) && Head(a[..|a| - 1]) == Head(b[..|b| - 1])
  {
    var a', b' := a[..|a| - 1], b[..|b| - 1];
    LastPreimage(h, a);
    LastPreimage(h, b);
    TruncationVerifies(h, a, |a| - 1);
    TruncationVerifies(h, b, |b| - 1);
    HeadLength(h, a');
    HeadLength(h, b');
    var x := Preimage(h, Head(a'), BodyOf(a[|a| - 1]));
    var y := Preimage(h, Head(b'), BodyOf(b[|b| - 1]));
    assert x == y;
    assert Head(a') == x[..HASH_LENGTH];
    assert Head(b') == y[..HASH_LENGTH];
    assert h.encode(BodyOf(a[|a| - 1])) == x[HASH_LENGTH..];
    assert h.encode(BodyOf(b[|b| - 1])) == y[HASH_LENGTH..];
  }

  lemma GenesisBound(h: Hasher, a: seq<Entry>, b: seq<Entry>)
    requires Intact(h, a) && Intact(h, b) && !HashBroken(h, a, b)
    requires Head(a) == Head(b)
    ensures |a| == 0 <==> |b| == 0
  {
  }

  lemma NothingRecorded(a: seq<Entry>, b: seq<Entry>)
    requires a == [] && b == []
    ensures SameRecord(a, b)
  {
  }

  lemma SameRecordAppend(a: seq<Entry>, b: seq<Entry>)
    requires |a| > 0 && |b| > 0 && SameRecord(a[..|a| - 1], b[..|b| - 1])
    requires BodyOf(a[|a| - 1]) == BodyOf(b[|b| - 1]) && Head(a) == Head(b)
    ensures SameRecord(a, b)
  {
  }

  /**
   * Tamper evidence: two ledgers that both pass verification and end in the same
   * entry hash tell the same story entry by entry, unless they exhibit a hash collision
   * (or a preimage of the genesis value) among the strings they hash.
   */
  lemma {:induction false} SameHeadSameRecord(h: Hasher, a: seq<Entry>, b: seq<Entry>)
    requires forall x :: |h.digest(x)| == HASH_LENGTH
    requires Intact(h, a) && Intact(h, b) && EncodesFaithfully(h, a, b) && !HashBroken(h, a, b)
    requires Head(a) == Head(b)
    ensures SameRecord(a, b)
    decreases |a|
  {
    hide Intact, EncodesFaithfully, HashBroken, SameRecord;
    GenesisBound(h, a, b);
    if |a| == 0 {
      NothingRecorded(a, b);
    } else {
      LastEntryBound(h, a, b);
      TruncationVerifies(h, a, |a| - 1);
      TruncationVerifies(h, b, |b| - 1);
      SoundInPrefix(h, a, b, |a| - 1, |b| - 1);
      SameHeadSameRecord(h, a[..|a| - 1], b[..|b| - 1]);
      SameRecordAppend(a, b);
    }
  }

  lemma SameEntrySwaps(a: seq<Entry>, b: seq<Entry>)
    requires SameRecord(a, b)
    ensures SameRecord(b, a)
  {
  }

  /** Editing any entry below the head, while the head hash is kept, makes verification fail. */
  lemma TamperingDetected(h: Hasher, es: seq<Entry>, forged: seq<Entry>, i: nat)
    requires forall x :: |h.digest(x)| == HASH_LENGTH
    requires Intact(h, es) && EncodesFaithfully(h, es, forged) && !HashBroken(h, es, forged)
    requires Head(forged) == Head(es)
    requires i < |es| && (i < |forged| ==> !SameEntry(forged[i], es[i]))
    ensures !Intact(h, forged)
  {
    hide Intact, EncodesFaithfully, HashBroken;
    if Intact(h, forged) {
      SameHeadSameRecord(h, es, forged);
      SameEntrySwaps(es, forged);
      assert false;
    }
  }
}
