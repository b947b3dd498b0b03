/**
 * Training the Bayes classifier: `train` and `untrain` move the learn
 * counter of one class and the per-token counts of that class.
 */
module Bayes {

  /** The hash of a token (the `inner` of an OSB token); only its identity matters here. */
  newtype TokenHash = x: int | 0 <= x

  /** How often a token was learned in spam and in ham messages. */
  datatype Weights = Weights(spam: int, ham: int)

  const Zero := Weights(0, 0)

  /** The counts of `t`, the default entry when it has none. */
  function CountsOf(w: map<TokenHash, Weights>, t: TokenHash): Weights {
    if t in w then w[t] else Zero
  }

  /** One occurrence: the entry of `t` (created at zero) moves by `delta` in the class of the message. */
  function Bump(w: map<TokenHash, Weights>, t: TokenHash, isSpam: bool, delta: int): map<TokenHash, Weights> {
    var hs := CountsOf(w, t);
    w[t := if isSpam then hs.(spam := hs.spam + delta) else hs.(ham := hs.ham + delta)]
  }

  /** Every occurrence of the tokens, in order. */
  function Adjusted(w: map<TokenHash, Weights>, tokens: seq<TokenHash>, isSpam: bool, delta: int)
    : map<TokenHash, Weights>
  {
    if tokens == [] then w
    else Bump(Adjusted(w, tokens[..|tokens| - 1], isSpam, delta), tokens[|tokens| - 1], isSpam, delta)
  }

  /** Each occurrence moves the token's count in the message's class; the other class and other tokens stay. */
  lemma {:induction false} AdjustedCounts(w: map<TokenHash, Weights>, tokens: seq<TokenHash>, isSpam: bool,
                                          delta: int, t: TokenHash)
    ensures t in Adjusted(w, tokens, isSpam, delta) <==> t in w || t in tokens
    ensures CountsOf(Adjusted(w, tokens, isSpam, delta), t)
         == var hs := CountsOf(w, t);
            var n := multiset(tokens)[t];
            if isSpam then hs.(spam := hs.spam + n * delta) else hs.(ham := hs.ham + n * delta)
  {
    if tokens != [] {
      var init := tokens[..|tokens| - 1];
      assert tokens == init + [tokens[|tokens| - 1]];
      var last := tokens[|tokens| - 1];
      assert multiset(tokens) == multiset(init) + multiset{last};
      var n := multiset(init)[t];
      assert multiset(tokens)[t] == n + (if last == t then 1 else 0);
      assert multiset(tokens)[t] * delta == n * delta + (if last == t then delta else 0);
      AdjustedCounts(w, init, isSpam, delta, t);
    }
  }

  /** The counts never go below zero. */
  predicate NonNegative(w: map<TokenHash, Weights>) {
    forall t :: t in w ==> w[t].spam >= 0 && w[t].ham >= 0
  }

  /** Every token's count in the class covers its occurrences, so untraining cannot go below zero. */
  predicate Covers(w: map<TokenHash, Weights>, tokens: seq<TokenHash>, isSpam: bool) {
    forall t :: t in tokens ==>
      multiset(tokens)[t] <= if isSpam then CountsOf(w, t).spam else CountsOf(w, t).ham
  }

  class BayesModel {
    var weights: map<TokenHash, Weights>
    var spamLearns: int
    var hamLearns: int

    predicate Valid()
      reads this
    {
      NonNegative(weights) && spamLearns >= 0 && hamLearns >= 0
    }

    constructor ()
      ensures Valid() && weights == map[] && spamLearns == 0 && hamLearns == 0
    {
      weights := map[];
      spamLearns := 0;
      hamLearns := 0;
    }

    /** Learn a message: its class's counter and each token occurrence's count in that class go up by one. */
    method Train(tokens: seq<TokenHash>, isSpam: bool)
      requires Valid()
      modifies this
      ensures Valid()
      ensures spamLearns == old(spamLearns) + (if isSpam then 1 else 0)
      ensures hamLearns == old(hamLearns) + (if isSpam then 0 else 1)
      ensures weights == Adjusted(old(weights), tokens, isSpam, 1)
    {
      if isSpam {
        spamLearns := spamLearns + 1;
      } else {
        hamLearns := hamLearns + 1;
      }
      var i := 0;
      while i < |tokens|
        invariant 0 <= i <= |tokens|
        invariant NonNegative(weights)
        invariant spamLearns == old(spamLearns) + (if isSpam then 1 else 0)
        invariant hamLearns == old(hamLearns) + (if isSpam then 0 else 1)
        invariant weights == Adjusted(old(weights), tokens[..i], isSpam, 1)
      {
        assert tokens[..i + 1][..i] == tokens[..i];
        var hs := CountsOf(weights, tokens[i]);
        if isSpam {
          hs := hs.(spam := hs.spam + 1);
        } else {
          hs := hs.(ham := hs.ham + 1);
        }
        weights := weights[tokens[i] := hs];
        i := i + 1;
      }
      assert tokens[..i] == tokens;
    }

    /** Forget a message: the exact reverse of `Train`. */
    method Untrain(tokens: seq<TokenHash>, isSpam: bool)
      requires Valid()
      requires if isSpam then spamLearns > 0 else hamLearns > 0
      requires Covers(weights, tokens, isSpam)
      modifies this
      ensures Valid()
      ensures spamLearns == old(spamLearns) - (if isSpam then 1 else 0)
      ensures hamLearns == old(hamLearns) - (if isSpam then 0 else 1)
      ensures weights == Adjusted(old(weights), tokens, isSpam, -1)
    {
      if isSpam {
        spamLearns := spamLearns - 1;
      } else {
        hamLearns := hamLearns - 1;
      }
      var i := 0;
      while i < |tokens|
        invariant 0 <= i <= |tokens|
        invariant spamLearns == old(spamLearns) - (if isSpam then 1 else 0)
        invariant hamLearns == old(hamLearns) - (if isSpam then 0 else 1)
        invariant weights == Adjusted(old(weights), tokens[..i], isSpam, -1)
      {
        assert tokens[..i + 1][..i] == tokens[..i];
        var hs := CountsOf(weights, tokens[i]);
        if isSpam {
          hs := hs.(spam := hs.spam - 1);
        } else {
          hs := hs.(ham := hs.ham - 1);
        }
        weights := weights[tokens[i] := hs];
        i := i + 1;
      }
      assert tokens[..i] == tokens;
      UntrainNonNegative(old(weights), tokens, isSpam);
    }
  }

  /** Untraining tokens the counts cover keeps every count at zero or above. */
  lemma UntrainNonNegative(w: map<TokenHash, Weights>, tokens: seq<TokenHash>, isSpam: bool)
    requires NonNegative(w) && Covers(w, tokens, isSpam)
    ensures NonNegative(Adjusted(w, tokens, isSpam, -1))
  {
    forall t | t in Adjusted(w, tokens, isSpam, -1)
      ensures Adjusted(w, tokens, isSpam, -1)[t].spam >= 0 && Adjusted(w, tokens, isSpam, -1)[t].ham >= 0
    {
      AdjustedCounts(w, tokens, isSpam, -1, t);
      if t !in tokens {
        assert multiset(tokens)[t] == 0;
      }
    }
  }

  /** Training keeps every count at zero or above. */
  lemma TrainNonNegative(w: map<TokenHash, Weights>, tokens: seq<TokenHash>, isSpam: bool)
    requires NonNegative(w)
    ensures NonNegative(Adjusted(w, tokens, isSpam, 1))
  {
    forall t | t in Adjusted(w, tokens, isSpam, 1)
      ensures Adjusted(w, tokens, isSpam, 1)[t].spam >= 0 && Adjusted(w, tokens, isSpam, 1)[t].ham >= 0
    {
      AdjustedCounts(w, tokens, isSpam, 1, t);
    }
  }

  /** After training, the counts cover the same tokens in the same class, so untraining is always possible. */
  lemma TrainCovers(w: map<TokenHash, Weights>, tokens: seq<TokenHash>, isSpam: bool)
    requires NonNegative(w)
    ensures Covers(Adjusted(w, tokens, isSpam, 1), tokens, isSpam)
  {
    forall t | t in tokens
      ensures multiset(tokens)[t] <= if isSpam then CountsOf(Adjusted(w, tokens, isSpam, 1), t).spam
                                                 else CountsOf(Adjusted(w, tokens, isSpam, 1), t).ham
    {
      AdjustedCounts(w, tokens, isSpam, 1, t);
    }
  }

  /**
   * Untraining what was trained restores every count; tokens the training
   * added stay in the map at zero.
   */
  lemma UntrainUndoesTrain(w: map<TokenHash, Weights>, tokens: seq<TokenHash>, isSpam: bool)
    ensures var r := Adjusted(Adjusted(w, tokens, isSpam, 1), tokens, isSpam, -1);
            (forall t :: t in r <==> t in w || t in tokens) &&
            (forall t :: t in w ==> r[t] == w[t]) &&
            (forall t :: t in tokens && t !in w ==> r[t] == Zero)
  {
    var trained := Adjusted(w, tokens, isSpam, 1);
    var r := Adjusted(trained, tokens, isSpam, -1);
    forall t
      ensures t in r <==> t in w || t in tokens
      ensures t in r ==> r[t] == CountsOf(w, t)
    {
      AdjustedCounts(w, tokens, isSpam, 1, t);
      AdjustedCounts(trained, tokens, isSpam, -1, t);
    }
  }
}
