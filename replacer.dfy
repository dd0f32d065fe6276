/** strings.Replacer as the named-parameter expansion uses it: a list of (old, new) pairs
    applied in one left-to-right pass without overlapping matches. */
module StringsReplacer {
  import opened Wrappers

  /** strings.NewReplacer(old1, new1, old2, new2, ...). */
  datatype Replacer = Replacer(pairs: seq<(string, string)>) {

    /** Every old string is non-empty (as every $name$ token is). */
    predicate Valid() {
      forall k | 0 <= k < |pairs| :: pairs[k].0 != []
    }

    /** The first pair, in argument order, whose old string starts s. */
    function Match(s: string): (r: Option<nat>)
      ensures r.Some? ==> r.value < |pairs| && IsPrefix(pairs[r.value].0, s)
      ensures r.Some? ==> forall k | 0 <= k < r.value :: !IsPrefix(pairs[k].0, s)
      ensures r.None? ==> forall k | 0 <= k < |pairs| :: !IsPrefix(pairs[k].0, s)
    {
      MatchFrom(s, 0)
    }

    function MatchFrom(s: string, from: nat): (r: Option<nat>)
      ensures r.Some? ==> from <= r.value < |pairs| && IsPrefix(pairs[r.value].0, s)
      ensures r.Some? ==> forall k | from <= k < r.value :: !IsPrefix(pairs[k].0, s)
      ensures r.None? ==> forall k | from <= k < |pairs| :: !IsPrefix(pairs[k].0, s)
      decreases |pairs| - from
    {
      if from >= |pairs| then None
      else if IsPrefix(pairs[from].0, s) then Some(from)
      else MatchFrom(s, from + 1)
    }

    /** Replace: at each position the first matching old string is replaced by its new string
        and the scan resumes after it; where nothing matches one character is copied. */
    function Replace(s: string): string
      requires Valid()
      decreases |s|
    {
      if s == [] then []
      else
        match Match(s)
        case Some(k) => pairs[k].1 + Replace(s[|pairs[k].0|..])
        case None => [s[0]] + Replace(s[1..])
    }
  }

  predicate IsPrefix(p: string, s: string) {
    |p| <= |s| && s[..|p|] == p
  }

  /** With no pairs the replacer is the identity. */
  lemma {:induction false} ReplaceWithoutPairs(s: string)
    ensures Replacer([]).Replace(s) == s
    decreases |s|
  {
    if s != [] {
      ReplaceWithoutPairs(s[1..]);
    }
  }

  /** Text in which no old string can start, because it lacks the first character of every
      old string, is copied unchanged, and the replacement continues after it. */
  lemma {:induction false} ReplaceSkipsPlainText(r: Replacer, lead: char, plain: string, rest: string)
    requires r.Valid()
    requires forall k | 0 <= k < |r.pairs| :: r.pairs[k].0[0] == lead
    requires lead !in plain
    ensures r.Replace(plain + rest) == plain + r.Replace(rest)
    decreases |plain|
  {
    if plain != [] {
      var s := plain + rest;
      assert s[0] == plain[0] != lead;
      assert r.Match(s).None?;
      assert s[1..] == plain[1..] + rest;
      ReplaceSkipsPlainText(r, lead, plain[1..], rest);
    } else {
      assert plain + rest == rest;
    }
  }

  /** Where pair k's old string starts the text and no earlier pair's does, its new string is
      written and the replacement resumes after the old string. */
  lemma ReplaceAtMatch(r: Replacer, k: nat, rest: string)
    requires r.Valid() && k < |r.pairs|
    requires forall j | 0 <= j < k :: !IsPrefix(r.pairs[j].0, r.pairs[k].0 + rest)
    ensures r.Replace(r.pairs[k].0 + rest) == r.pairs[k].1 + r.Replace(rest)
  {
    var s := r.pairs[k].0 + rest;
    assert s[..|r.pairs[k].0|] == r.pairs[k].0;
    assert s[|r.pairs[k].0|..] == rest;
  }

  /** Text without the lead character, put before a text the replacer rewrites to v, is
      kept in front of v. */
  lemma ReplaceAfterPlainText(r: Replacer, lead: char, plain: string, tail: string, v: string)
    requires r.Valid()
    requires forall k | 0 <= k < |r.pairs| :: r.pairs[k].0[0] == lead
    requires lead !in plain && r.Replace(tail) == v
    ensures r.Replace(plain + tail) == plain + v
  {
    ReplaceSkipsPlainText(r, lead, plain, tail);
  }
}
