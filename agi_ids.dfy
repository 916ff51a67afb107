/**
 * Validation of a batch of AGI gene identifiers against the pattern
 * `^AT[1-5MC]G\d{5}$`, matched case-insensitively, before the identifiers are
 * spliced into a quoted SQL list.
 */
module AgiIds {

  const Digits: set<char> := {'0', '1', '2', '3', '4', '5', '6', '7', '8', '9'}

  /**
   * The pattern as one character class per position, with case-insensitive
   * letters spelled out: `A`, `T`, a chromosome `[1-5MC]`, `G`, five digits.
   */
  const AgiPattern: seq<set<char>> := [
    {'A', 'a'}, {'T', 't'},
    {'1', '2', '3', '4', '5', 'M', 'm', 'C', 'c'},
    {'G', 'g'},
    Digits, Digits, Digits, Digits, Digits
  ]

  /** `s` is matched position by position by `pattern`. */
  ghost predicate FullMatch(s: string, pattern: seq<set<char>>)
  {
    |s| == |pattern| && forall i :: 0 <= i < |s| ==> s[i] in pattern[i]
  }

  /**
   * PCRE's `^…$` without the multiline flag: `$` matches at the very end or
   * just before one final newline.
   */
  ghost predicate AnchoredMatch(s: string, pattern: seq<set<char>>)
  {
    FullMatch(s, pattern)
    || (|s| == |pattern| + 1 && s[|pattern|] == '\n' && FullMatch(s[..|pattern|], pattern))
  }

  predicate IsDigit(c: char)
  {
    '0' <= c <= '9'
  }

  /** The nine characters of an AGI identifier, checked one by one. */
  predicate IsAgiCore(s: string)
    requires |s| == 9
  {
    && (s[0] == 'A' || s[0] == 'a')
    && (s[1] == 'T' || s[1] == 't')
    && ('1' <= s[2] <= '5' || s[2] in "MmCc")
    && (s[3] == 'G' || s[3] == 'g')
    && IsDigit(s[4]) && IsDigit(s[5]) && IsDigit(s[6]) && IsDigit(s[7]) && IsDigit(s[8])
  }

  /** What `preg_match("/^AT[1-5MC]G\d{5}$/i", gene)` accepts. */
  predicate MatchesAgi(gene: string)
  {
    || (|gene| == 9 && IsAgiCore(gene))
    || (|gene| == 10 && gene[9] == '\n' && IsAgiCore(gene[..9]))
  }

  lemma IsAgiCoreIsPattern(s: string)
    requires |s| == 9
    ensures IsAgiCore(s) <==> FullMatch(s, AgiPattern)
  {
    assert forall c :: IsDigit(c) <==> c in Digits;
    if FullMatch(s, AgiPattern) {
      assert s[2] in AgiPattern[2];
      assert s[4] in Digits && s[5] in Digits && s[6] in Digits && s[7] in Digits && s[8] in Digits;
    }
  }

  /** The direct check accepts exactly what the anchored pattern matches. */
  lemma MatchesAgiIsPattern(gene: string)
    ensures MatchesAgi(gene) <==> AnchoredMatch(gene, AgiPattern)
  {
    if |gene| == 9 {
      IsAgiCoreIsPattern(gene);
    } else if |gene| == 10 {
      IsAgiCoreIsPattern(gene[..9]);
    }
  }

  /**
   * Fail-fast batch check: the batch is valid iff every identifier matches
   * the pattern; the empty batch is valid.
   */
  method IsAgiArrayValid(agi: seq<string>) returns (valid: bool)
    ensures valid <==> forall i :: 0 <= i < |agi| ==> AnchoredMatch(agi[i], AgiPattern)
  {
    for i := 0 to |agi|
      invariant forall j :: 0 <= j < i ==> AnchoredMatch(agi[j], AgiPattern)
    {
      MatchesAgiIsPattern(agi[i]);
      if !MatchesAgi(agi[i]) {
        return false;
      }
    }
    return true;
  }

  /**
   * What the check is for: an accepted identifier has only letters and
   * digits, apart from at most one final newline, so it holds no quote or
   * backslash that could end the quoted SQL literal it is placed in.
   */
  lemma {:induction false} AcceptedIdIsSqlSafe(gene: string)
    requires AnchoredMatch(gene, AgiPattern)
    ensures forall i :: 0 <= i < |gene| ==> gene[i] != '\'' && gene[i] != '\\'
    ensures 9 <= |gene| <= 10
  {
    var core := gene[..9];
    assert FullMatch(core, AgiPattern);
    forall i | 0 <= i < |gene| ensures gene[i] != '\'' && gene[i] != '\\' {
      if i < 9 {
        assert gene[i] == core[i] && core[i] in AgiPattern[i];
      }
    }
  }
}
