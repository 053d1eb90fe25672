/**
 * The hint store of a game question (its help hash), the rule that decides
 * which keys a hint may consider, and the three hint computations.
 */
module Help {
  import opened Results
  import opened Keys
  import opened Answers

  /** The names hints are stored under. */
  datatype HelpKind = FiftyFifty | AudienceHelp | FriendCall

  /** What a hint stored: the two kept keys, the audience's votes per key, or the friend's message. */
  datatype Hint =
    | FiftyFiftyHint(kept: set<Key>)
    | AudienceHint(votes: map<Key, nat>)
    | FriendHint(message: string)

  type HelpHash = map<HelpKind, Hint>

  /** The payload shape that belongs to each hint name. */
  predicate Fits(kind: HelpKind, hint: Hint) {
    match kind
    case FiftyFifty => hint.FiftyFiftyHint?
    case AudienceHelp => hint.AudienceHint?
    case FriendCall => hint.FriendHint?
  }

  /**
   * The keys a hint may consider: all four, until a fifty-fifty result is
   * stored, and from then on the two keys it kept.
   */
  function EligibleKeys(h: HelpHash): (r: set<Key>)
    ensures FiftyFifty !in h ==> r == AllKeys
    ensures FiftyFifty in h && h[FiftyFifty].FiftyFiftyHint? ==> r == h[FiftyFifty].kept
  {
    if FiftyFifty in h && h[FiftyFifty].FiftyFiftyHint? then h[FiftyFifty].kept else AllKeys
  }

  /**
   * The invariant of the hint store: each payload has its name's shape and a
   * fifty-fifty result holds exactly two keys, one of them the correct key.
   */
  predicate WellFormed(m: SlotMapping, h: HelpHash) {
    && (forall kind :: kind in h ==> Fits(kind, h[kind]))
    && (FiftyFifty in h ==>
          && h[FiftyFifty].FiftyFiftyHint?
          && |h[FiftyFifty].kept| == 2
          && CorrectAnswerKey(m).Some?
          && CorrectAnswerKey(m).value in h[FiftyFifty].kept)
  }

  /** Every hint stored in h is still stored, unchanged, in h'. */
  predicate Extends(h: HelpHash, h': HelpHash) {
    forall kind :: kind in h ==> kind in h' && h'[kind] == h[kind]
  }

  /**
   * Storing a hint other than fifty-fifty, in its own shape, keeps the store
   * well formed, keeps every earlier hint and leaves the eligible keys alone.
   */
  lemma StoreOtherHint(m: SlotMapping, h: HelpHash, kind: HelpKind, hint: Hint)
    requires WellFormed(m, h) && kind != FiftyFifty && Fits(kind, hint) && kind !in h
    ensures WellFormed(m, h[kind := hint])
    ensures Extends(h, h[kind := hint])
    ensures EligibleKeys(h[kind := hint]) == EligibleKeys(h)
  {
    var h' := h[kind := hint];
    forall k | k in h' ensures Fits(k, h'[k]) {
      if k != kind {
        assert h'[k] == h[k];
      }
    }
  }

  lemma EmptyStoreIsWellFormed(m: SlotMapping)
    ensures WellFormed(m, map[])
    ensures EligibleKeys(map[]) == AllKeys && |EligibleKeys(map[])| == 4
  {
    AllKeysSize();
  }

  /**
   * In a well-formed store the eligible keys are four before the fifty-fifty
   * hint and two after it, and they always include the correct key.
   */
  lemma EligibleKeysSize(m: SlotMapping, h: HelpHash)
    requires WellFormed(m, h)
    ensures |EligibleKeys(h)| == if FiftyFifty in h then 2 else 4
    ensures CorrectAnswerKey(m).Some? ==> CorrectAnswerKey(m).value in EligibleKeys(h)
  {
    AllKeysSize();
    if CorrectAnswerKey(m).Some? {
      EveryKeyListed(CorrectAnswerKey(m).value);
    }
  }

  /**
   * Adding hints never widens the eligible keys, and once the fifty-fifty
   * result is stored they stay exactly its two keys.
   */
  lemma NarrowingIsSticky(m: SlotMapping, h: HelpHash, h': HelpHash)
    requires WellFormed(m, h) && WellFormed(m, h') && Extends(h, h')
    ensures EligibleKeys(h') <= EligibleKeys(h)
    ensures FiftyFifty in h ==> EligibleKeys(h') == EligibleKeys(h)
  {
    if FiftyFifty !in h {
      forall k | k in EligibleKeys(h') ensures k in EligibleKeys(h) {
        EveryKeyListed(k);
      }
    }
  }

  /**
   * The fifty-fifty result: the correct key and one other eligible key,
   * picked by the draw `roll`.
   */
  function FiftyFiftyKeep(eligible: set<Key>, correct: Key, roll: nat): (r: set<Key>)
    requires correct in eligible && |eligible| >= 2
    ensures |r| == 2 && correct in r && r <= eligible
  {
    RemoveLeavesNonEmpty(eligible, correct);
    {correct, Sample(eligible - {correct}, roll)}
  }

  /** Every other eligible key can be the one that fifty-fifty keeps. */
  lemma FiftyFiftyCanKeepAnyOther(eligible: set<Key>, correct: Key, other: Key)
    requires correct in eligible && other in eligible && other != correct
    ensures |eligible| >= 2
    ensures exists roll: nat :: FiftyFiftyKeep(eligible, correct, roll) == {correct, other}
  {
    assert {correct, other} <= eligible;
    assert |{correct, other}| == 2;
    SubsetSize({correct, other}, eligible);
    SampleReachesEvery(eligible - {correct}, other);
    var roll: nat :| Sample(eligible - {correct}, roll) == other;
    assert FiftyFiftyKeep(eligible, correct, roll) == {correct, other};
  }

  lemma SubsetSize(s: set<Key>, t: set<Key>)
    requires s <= t
    ensures |s| <= |t|
  {
    assert t == s + (t - s);
  }

  /** The audience's votes: one count per eligible key, as the draw gives it. */
  function AudienceVotes(eligible: set<Key>, draw: Key -> nat): (r: map<Key, nat>)
    ensures r.Keys == eligible
  {
    map k | k in eligible :: draw(k)
  }

  /** The key the friend names, drawn from the eligible keys. */
  function FriendPick(eligible: set<Key>, roll: nat): (k: Key)
    requires eligible != {}
    ensures k in eligible
  {
    Sample(eligible, roll)
  }

  /** The fixed phrase every friend-call message carries. */
  const FriendPhrase: string := "считает, что это вариант"

  /** The friend's message: who calls, the phrase, then the named key's letter. */
  function FriendCallMessage(friend: string, k: Key): (r: string)
    ensures |r| > |friend| && r[..|friend|] == friend
    ensures OccursAt(r, FriendPhrase, |friend| + 1)
    ensures r[|r| - 1] == Label(k)
  {
    friend + " " + FriendPhrase + " " + [Label(k)]
  }

  /** The key a friend-call message names: its last letter. */
  function FriendCallKey(message: string): Option<Key> {
    if message == [] then None else ParseLabel(message[|message| - 1])
  }

  /** part occurs in s starting at index i. */
  predicate OccursAt(s: string, part: string, i: nat) {
    i + |part| <= |s| && s[i..i + |part|] == part
  }

  predicate Contains(s: string, part: string) {
    exists i: nat :: i <= |s| && OccursAt(s, part, i)
  }

  /** A friend-call message carries the phrase and names the key it was built from. */
  lemma FriendCallMessageNamesKey(friend: string, k: Key)
    ensures Contains(FriendCallMessage(friend, k), FriendPhrase)
    ensures FriendCallKey(FriendCallMessage(friend, k)) == Some(k)
  {
    var msg := FriendCallMessage(friend, k);
    var i := |friend| + 1;
    assert OccursAt(msg, FriendPhrase, i);
    ParseName(k);
  }
}
