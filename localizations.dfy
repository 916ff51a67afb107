/**
 * Localization lists and the score map they feed.
 *
 * A cell holds localizations as a comma-separated string ("cytosol,nucleus").
 * `Split` is PHP's `explode(',', s)`: it always yields at least one token,
 * the empty string yields one empty token, and tokens are neither trimmed nor
 * case-folded. The score map gives every token an integer score;
 * `ScoreTable.ProcessLocalizations` adds one weight per token occurrence.
 */
module Localizations {

  import opened Wrappers

  /** `explode(',', s)`: the maximal comma-free pieces of `s`, in order. */
  function Split(s: string): (r: seq<string>)
    ensures |r| >= 1
    ensures forall i :: 0 <= i < |r| ==> ',' !in r[i]
    ensures Join(r) == s
    decreases |s|
  {
    if s == [] then [""]
    else if s[0] == ',' then [""] + Split(s[1..])
    else
      var rest := Split(s[1..]);
      [[s[0]] + rest[0]] + rest[1..]
  }

  /** `implode(',', ts)`: the tokens separated by single commas. */
  function Join(ts: seq<string>): string
    requires |ts| >= 1
  {
    if |ts| == 1 then ts[0] else ts[0] + "," + Join(ts[1..])
  }

  ghost predicate CommaFree(ts: seq<string>)
  {
    forall i :: 0 <= i < |ts| ==> ',' !in ts[i]
  }

  /** Splitting undoes joining: comma-free tokens come back unchanged. */
  lemma {:induction false} SplitJoin(ts: seq<string>)
    requires |ts| >= 1 && CommaFree(ts)
    ensures Split(Join(ts)) == ts
    decreases |Join(ts)|, |ts|
  {
    if |ts| == 1 {
      SplitCommaFree(ts[0]);
    } else {
      var tail := Join(ts[1..]);
      assert CommaFree(ts[1..]) by {
        forall i | 0 <= i < |ts| - 1 ensures ',' !in ts[1..][i] {
          assert ts[1..][i] == ts[i + 1];
        }
      }
      if ts[0] == [] {
        assert Join(ts) == "," + tail;
        assert Join(ts)[1..] == tail;
        SplitJoin(ts[1..]);
      } else {
        var rest := ts[0][1..];
        var ts' := [rest] + ts[1..];
        assert ts'[1..] == ts[1..];
        assert Join(ts') == rest + "," + tail;
        assert Join(ts) == [ts[0][0]] + Join(ts');
        assert Join(ts)[1..] == Join(ts');
        assert ',' !in rest by {
          assert forall c :: c in rest ==> c in ts[0];
        }
        assert CommaFree(ts') by {
          forall i | 0 <= i < |ts'| ensures ',' !in ts'[i] {
            if i > 0 { assert ts'[i] == ts[i]; }
          }
        }
        SplitJoin(ts');
        assert [ts[0][0]] + rest == ts[0];
      }
    }
  }

  /** A string without a comma is a single token. */
  lemma {:induction false} SplitCommaFree(s: string)
    requires ',' !in s
    ensures Split(s) == [s]
    decreases |s|
  {
    if s != [] {
      assert ',' !in s[1..] by {
        assert forall c :: c in s[1..] ==> c in s;
      }
      SplitCommaFree(s[1..]);
      assert [s[0]] + s[1..] == s;
    }
  }

  /** The score of `k`, reading an absent key as 0. */
  function Lookup(scores: map<string, int>, k: string): int
  {
    if k in scores then scores[k] else 0
  }

  /** How many of `tokens` are exactly `k`. */
  function Count(tokens: seq<string>, k: string): nat
  {
    multiset(tokens)[k]
  }

  /**
   * One step of the accumulator: a key seen for the first time starts at
   * `value`, a key already present is incremented by `value`.
   */
  function AddToken(scores: map<string, int>, k: string, value: int): (r: map<string, int>)
    ensures r.Keys == scores.Keys + {k}
    ensures r[k] == Lookup(scores, k) + value
    ensures forall j :: j in scores && j != k ==> r[j] == scores[j]
  {
    if k !in scores then scores[k := value] else scores[k := scores[k] + value]
  }

  /** The score map after adding `value` once for each token, first to last. */
  function AddTokens(scores: map<string, int>, tokens: seq<string>, value: int): map<string, int>
    decreases |tokens|
  {
    if tokens == [] then scores
    else AddToken(AddTokens(scores, tokens[..|tokens| - 1], value), tokens[|tokens| - 1], value)
  }

  /** Keys afterwards: every key of the old map and every token, nothing else. */
  lemma {:induction false} AddTokensKeys(scores: map<string, int>, tokens: seq<string>, value: int)
    ensures AddTokens(scores, tokens, value).Keys == scores.Keys + set t | t in tokens
    decreases |tokens|
  {
    if tokens != [] {
      var front, last := tokens[..|tokens| - 1], tokens[|tokens| - 1];
      assert tokens == front + [last];
      AddTokensKeys(scores, front, value);
      assert (set t | t in tokens) == (set t | t in front) + {last};
    }
  }

  /**
   * Score afterwards: the old score of `k` (0 if absent) plus `value` times
   * the number of occurrences of `k` among the tokens.
   */
  lemma {:induction false} AddTokensAt(scores: map<string, int>, tokens: seq<string>, value: int, k: string)
    ensures Lookup(AddTokens(scores, tokens, value), k) == Lookup(scores, k) + value * Count(tokens, k)
    decreases |tokens|
  {
    if tokens != [] {
      var front, last := tokens[..|tokens| - 1], tokens[|tokens| - 1];
      var before := AddTokens(scores, front, value);
      assert AddTokens(scores, tokens, value) == AddToken(before, last, value);
      AddTokensAt(scores, front, value, k);
      CountSnoc(front, last, k);
      assert tokens == front + [last];
      var c := Count(front, k);
      if k == last {
        MulSucc(value, c);
      }
    }
  }

  lemma MulSucc(v: int, c: int)
    ensures v * (c + 1) == v * c + v
  {
  }

  lemma CountSnoc(front: seq<string>, last: string, k: string)
    ensures Count(front + [last], k) == Count(front, k) + (if k == last then 1 else 0)
  {
    assert multiset(front + [last]) == multiset(front) + multiset{last};
  }

  /** The accumulator law, for all keys at once. */
  lemma AddTokensSpec(scores: map<string, int>, tokens: seq<string>, value: int)
    ensures AddTokens(scores, tokens, value).Keys == scores.Keys + set t | t in tokens
    ensures forall k :: Lookup(AddTokens(scores, tokens, value), k) == Lookup(scores, k) + value * Count(tokens, k)
  {
    AddTokensKeys(scores, tokens, value);
    forall k ensures Lookup(AddTokens(scores, tokens, value), k) == Lookup(scores, k) + value * Count(tokens, k) {
      AddTokensAt(scores, tokens, value, k);
    }
  }

  /** Adding one list of tokens after another is adding their concatenation. */
  lemma {:induction false} AddTokensAppend(scores: map<string, int>, a: seq<string>, b: seq<string>, value: int)
    ensures AddTokens(AddTokens(scores, a, value), b, value) == AddTokens(scores, a + b, value)
    decreases |b|
  {
    if b == [] {
      assert a + b == a;
    } else {
      var front := b[..|b| - 1];
      AddTokensAppend(scores, a, front, value);
      assert (a + b)[..|a + b| - 1] == a + front;
    }
  }

  /** Two maps that agree on their keys and on every score are the same map. */
  lemma SameScores(m1: map<string, int>, m2: map<string, int>)
    requires m1.Keys == m2.Keys
    requires forall k :: Lookup(m1, k) == Lookup(m2, k)
    ensures m1 == m2
  {
    forall k | k in m1 ensures m1[k] == m2[k] {
      assert Lookup(m1, k) == Lookup(m2, k);
    }
  }

  /**
   * Accumulation is order-independent: applying two cells' tokens, with
   * their weights, in either order gives the same map.
   */
  lemma AddTokensCommute(scores: map<string, int>, a: seq<string>, va: int, b: seq<string>, vb: int)
    ensures AddTokens(AddTokens(scores, a, va), b, vb) == AddTokens(AddTokens(scores, b, vb), a, va)
  {
    var ab, ba := AddTokens(scores, a, va), AddTokens(scores, b, vb);
    AddTokensSpec(scores, a, va);
    AddTokensSpec(scores, b, vb);
    AddTokensSpec(ab, b, vb);
    AddTokensSpec(ba, a, va);
    forall k ensures Lookup(AddTokens(ab, b, vb), k) == Lookup(AddTokens(ba, a, va), k) {
      assert Lookup(AddTokens(ab, b, vb), k) == Lookup(scores, k) + va * Count(a, k) + vb * Count(b, k);
    }
    SameScores(AddTokens(ab, b, vb), AddTokens(ba, a, va));
  }

  /** The scores held by a slot that may still be unset (PHP `null`). */
  function Scores(slot: Option<map<string, int>>): map<string, int>
  {
    if slot.Some? then slot.value else map[]
  }

  /**
   * The by-reference `$scores` argument of `processLocalizations`: a slot
   * that is unset until the first call and holds the score map afterwards.
   */
  class ScoreTable {
    var data: Option<map<string, int>>

    constructor ()
      ensures data == None
    {
      data := None;
    }

    /**
     * Split `localizations` on ',' and add `value` to each token's score,
     * creating the entry when absent. The slot is set afterwards even when
     * it was unset, since a split always yields a token.
     */
    method ProcessLocalizations(localizations: string, value: int)
      modifies this
      ensures data == Some(AddTokens(Scores(old(data)), Split(localizations), value))
    {
      var locArray := Split(localizations);
      for i := 0 to |locArray|
        invariant Scores(data) == AddTokens(Scores(old(data)), locArray[..i], value)
        invariant data.Some? <==> old(data).Some? || i > 0
      {
        var loc := locArray[i];
        var scores := Scores(data);
        if loc !in scores {
          data := Some(scores[loc := value]);
        } else {
          data := Some(scores[loc := scores[loc] + value]);
        }
        assert locArray[..i + 1][..i] == locArray[..i];
      }
      assert locArray[..|locArray|] == locArray;
    }
  }
}
