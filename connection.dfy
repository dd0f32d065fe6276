/** Query interpolation: every `?` of the template is replaced by the next argument, by
    position, and then every `$name$` token of the result by the named argument's text. */
module Connection {
  import opened Wrappers
  import opened Decimal
  import opened Values
  import opened Bare
  import opened Parameters
  import opened StringsReplacer

  const Placeholder: char := '?'
  const NamedParamDelimiter: string := "$"

  /** driver.NamedValue: an argument with its optional name (empty when unnamed), its
      1-based ordinal and its value. */
  datatype NamedValue = NamedValue(name: string, ordinal: nat, value: Param)

  /** The token a named argument replaces: its name between two delimiters. */
  function Token(name: string): string {
    NamedParamDelimiter + name + NamedParamDelimiter
  }

  // ---------------------------------------------------------------------------------------
  // buildNamedParamExpander

  /** The named arguments, in order. */
  function NamedOnly(nvs: seq<NamedValue>): (r: seq<NamedValue>)
    ensures forall i | 0 <= i < |r| :: r[i].name != ""
  {
    if nvs == [] then []
    else
      var init := NamedOnly(nvs[..|nvs| - 1]);
      if nvs[|nvs| - 1].name == "" then init else init + [nvs[|nvs| - 1]]
  }

  /** The names of the named arguments. */
  function Names(nvs: seq<NamedValue>): set<string> {
    set i | 0 <= i < |NamedOnly(nvs)| :: NamedOnly(nvs)[i].name
  }

  predicate DistinctNames(nvs: seq<NamedValue>) {
    forall i, j | 0 <= i < j < |nvs| :: nvs[i].name != nvs[j].name
  }

  /** The replacement pairs of buildNamedParamExpander: for each named argument in order, its
      token and its formatted text. A name seen before, or a formatting failure, aborts; each
      token begins with the delimiter. */
  function NamedPairs(nvs: seq<NamedValue>, floats: FloatCodec): (r: Result<seq<(string, string)>, Error>)
    ensures r.Ok? ==> forall k | 0 <= k < |r.value| :: |r.value[k].0| >= 2 && r.value[k].0[0] == '$'
    ensures r.Err? ==> r.error.DuplicateNamedParameter? || r.error.CannotFormatParameter?
  {
    if nvs == [] then Ok([])
    else
      var init := nvs[..|nvs| - 1];
      var nv := nvs[|nvs| - 1];
      match NamedPairs(init, floats)
      case Err(e) => Err(e)
      case Ok(pairs) =>
        if nv.name == "" then Ok(pairs)
        else if nv.name in Names(init) then Err(DuplicateNamedParameter(nv.name))
        else
          match FormatParam(nv.value, floats)
          case Err(e) => Err(CannotFormatParameter(e))
          case Ok(text) => Ok(pairs + [(Token(nv.name), text)])
  }

  function NamedExpander(nvs: seq<NamedValue>, floats: FloatCodec): (r: Result<Replacer, Error>)
    ensures r.Ok? ==> r.value.Valid()
  {
    match NamedPairs(nvs, floats)
    case Ok(pairs) => Ok(Replacer(pairs))
    case Err(e) => Err(e)
  }

  lemma NamedOnlySnoc(nvs: seq<NamedValue>, nv: NamedValue)
    ensures NamedOnly(nvs + [nv]) == if nv.name == "" then NamedOnly(nvs) else NamedOnly(nvs) + [nv]
  {
    assert (nvs + [nv])[..|nvs|] == nvs;
  }

  lemma NamesSnoc(nvs: seq<NamedValue>, nv: NamedValue)
    ensures Names(nvs + [nv]) == if nv.name == "" then Names(nvs) else Names(nvs) + {nv.name}
  {
    NamedOnlySnoc(nvs, nv);
    var before := NamedOnly(nvs);
    var after := NamedOnly(nvs + [nv]);
    if nv.name != "" {
      forall n | n in Names(nvs) ensures n in Names(nvs + [nv]) {
        var i :| 0 <= i < |before| && before[i].name == n;
        assert after[i] == before[i];
      }
      assert after[|before|].name == nv.name;
      forall n | n in Names(nvs + [nv]) ensures n in Names(nvs) + {nv.name} {
        var i :| 0 <= i < |after| && after[i].name == n;
        if i < |before| {
          assert after[i] == before[i];
        }
      }
    }
  }

  lemma DistinctNamesSnoc(ns: seq<NamedValue>, nv: NamedValue)
    ensures DistinctNames(ns + [nv])
            <==> DistinctNames(ns) && forall i | 0 <= i < |ns| :: ns[i].name != nv.name
  {
    var all := ns + [nv];
    assert forall i | 0 <= i < |ns| :: all[i] == ns[i];
    assert all[|ns|] == nv;
  }

  predicate AllFormat(ns: seq<NamedValue>, floats: FloatCodec) {
    forall i | 0 <= i < |ns| :: FormatParam(ns[i].value, floats).Ok?
  }

  /** The named pass succeeds exactly when the named arguments have distinct names and all
      format; then it yields, for each named argument in order, its token and its text. */
  lemma NamedPairsSpec(nvs: seq<NamedValue>, floats: FloatCodec)
    ensures NamedPairs(nvs, floats).Ok? <==> DistinctNames(NamedOnly(nvs)) && AllFormat(NamedOnly(nvs), floats)
    ensures var named := NamedOnly(nvs);
            NamedPairs(nvs, floats).Ok? ==>
              var pairs := NamedPairs(nvs, floats).value;
              |pairs| == |named|
              && forall i | 0 <= i < |named| ::
                   pairs[i].0 == Token(named[i].name) && FormatParam(named[i].value, floats) == Ok(pairs[i].1)
  {
    NamedPairsSucceeds(nvs, floats);
    NamedPairsValues(nvs, floats);
  }

  lemma {:induction false} NamedPairsSucceeds(nvs: seq<NamedValue>, floats: FloatCodec)
    ensures NamedPairs(nvs, floats).Ok? <==> DistinctNames(NamedOnly(nvs)) && AllFormat(NamedOnly(nvs), floats)
  {
    if nvs != [] {
      var init := nvs[..|nvs| - 1];
      var nv := nvs[|nvs| - 1];
      assert nvs == init + [nv];
      NamedOnlySnoc(init, nv);
      NamedPairsSucceeds(init, floats);
      var namedInit := NamedOnly(init);
      if nv.name != "" {
        DistinctNamesSnoc(namedInit, nv);
        assert nv.name in Names(init) <==> exists i | 0 <= i < |namedInit| :: namedInit[i].name == nv.name;
        var named := namedInit + [nv];
        assert AllFormat(named, floats) <==> AllFormat(namedInit, floats) && FormatParam(nv.value, floats).Ok? by {
          assert forall i | 0 <= i < |namedInit| :: named[i] == namedInit[i];
          assert named[|namedInit|] == nv;
        }
      }
    }
  }

  lemma {:induction false} NamedPairsValues(nvs: seq<NamedValue>, floats: FloatCodec)
    ensures var named := NamedOnly(nvs);
            NamedPairs(nvs, floats).Ok? ==>
              var pairs := NamedPairs(nvs, floats).value;
              |pairs| == |named|
              && forall i | 0 <= i < |named| ::
                   pairs[i].0 == Token(named[i].name) && FormatParam(named[i].value, floats) == Ok(pairs[i].1)
  {
    if nvs != [] {
      var init := nvs[..|nvs| - 1];
      var nv := nvs[|nvs| - 1];
      assert nvs == init + [nv];
      NamedOnlySnoc(init, nv);
      NamedPairsValues(init, floats);
      var namedInit := NamedOnly(init);
      if nv.name != "" && NamedPairs(nvs, floats).Ok? {
        var named := namedInit + [nv];
        var pairsInit := NamedPairs(init, floats).value;
        var pairs := NamedPairs(nvs, floats).value;
        assert pairs == pairsInit + [(Token(nv.name), FormatParam(nv.value, floats).value)];
        assert forall i | 0 <= i < |namedInit| :: pairs[i] == pairsInit[i] && named[i] == namedInit[i];
      }
    }
  }

  /** Once a prefix of the arguments fails the named pass, all of them fail with that error. */
  lemma {:induction false} NamedPairsErrorPersists(nvs: seq<NamedValue>, floats: FloatCodec, i: nat)
    requires i <= |nvs| && NamedPairs(nvs[..i], floats).Err?
    ensures NamedPairs(nvs, floats) == NamedPairs(nvs[..i], floats)
    decreases |nvs| - i
  {
    if i < |nvs| {
      assert nvs[..i + 1][..i] == nvs[..i];
      NamedPairsErrorPersists(nvs, floats, i + 1);
    } else {
      assert nvs[..i] == nvs;
    }
  }

  /** A name given to two arguments is an error; so is a named argument that does not format. */
  lemma NamedPairsRejects(nvs: seq<NamedValue>, floats: FloatCodec)
    ensures (exists i, j | 0 <= i < j < |NamedOnly(nvs)| :: NamedOnly(nvs)[i].name == NamedOnly(nvs)[j].name)
            ==> NamedPairs(nvs, floats).Err?
    ensures (exists i | 0 <= i < |NamedOnly(nvs)| :: FormatParam(NamedOnly(nvs)[i].value, floats).Err?)
            ==> NamedPairs(nvs, floats).Err?
  {
    NamedPairsSpec(nvs, floats);
  }

  /** buildNamedParamExpander: the loop over the arguments with its map of seen names. */
  method BuildNamedParamExpander(nvs: seq<NamedValue>, floats: FloatCodec) returns (r: Result<Replacer, Error>)
    ensures r == NamedExpander(nvs, floats)
  {
    var args: seq<(string, string)> := [];
    var seen: map<string, bool> := map[];
    for i := 0 to |nvs|
      invariant NamedPairs(nvs[..i], floats) == Ok(args)
      invariant seen.Keys == Names(nvs[..i])
      invariant forall n | n in seen :: seen[n]
    {
      var nv := nvs[i];
      assert nvs[..i + 1] == nvs[..i] + [nv];
      NamesSnoc(nvs[..i], nv);
      if nv.name == "" {
        continue;
      }
      if nv.name in seen && seen[nv.name] {
        NamedPairsErrorPersists(nvs, floats, i + 1);
        return Err(DuplicateNamedParameter(nv.name));
      }
      seen := seen[nv.name := true];
      var text := FormatParam(nv.value, floats);
      if text.Err? {
        NamedPairsErrorPersists(nvs, floats, i + 1);
        return Err(CannotFormatParameter(text.error));
      }
      args := args + [(Token(nv.name), text.value)];
    }
    assert nvs[..|nvs|] == nvs;
    return Ok(Replacer(args));
  }

  // ---------------------------------------------------------------------------------------
  // The positional pass

  /** The number of placeholders in a template. */
  function Count(q: string): nat {
    if q == [] then 0
    else (if q[0] == Placeholder then 1 else 0) + Count(q[1..])
  }

  lemma {:induction false} CountConcat(a: string, b: string)
    ensures Count(a + b) == Count(a) + Count(b)
  {
    if a == [] {
      assert a + b == b;
    } else {
      assert (a + b)[1..] == a[1..] + b;
      CountConcat(a[1..], b);
    }
  }

  lemma CountOne(c: char)
    ensures Count([c]) == if c == Placeholder then 1 else 0
  {
    assert [c][1..] == [];
  }

  lemma {:induction false} CountZero(q: string)
    requires Placeholder !in q
    ensures Count(q) == 0
  {
    if q != [] {
      assert q == [q[0]] + q[1..];
      CountZero(q[1..]);
    }
  }

  /** The positional pass over the template, character by character: each `?` takes the
      formatted text of the argument at the next position, any other character is copied.
      The result is the text and the number of placeholders consumed. */
  function Positional(q: string, args: seq<NamedValue>, floats: FloatCodec): (r: Result<(string, nat), Error>)
    ensures r.Ok? ==> r.value.1 == Count(q) <= |args|
  {
    if q == [] then Ok(([], 0))
    else
      var init := q[..|q| - 1];
      var c := q[|q| - 1];
      assert q == init + [c];
      CountConcat(init, [c]);
      CountOne(c);
      match Positional(init, args, floats)
      case Err(e) => Err(e)
      case Ok((b, pos)) =>
        if c == Placeholder then
          if |args| < pos + 1 then Err(TooFewParameters)
          else
            match FormatParam(args[pos].value, floats)
            case Err(e) => Err(e)
            case Ok(text) => Ok((b + text, pos + 1))
        else Ok((b + [c], pos))
  }

  /** The reference substitution, read from the front: the k-th placeholder becomes the k-th
      text and every other character is kept. */
  function Substitute(q: string, texts: seq<string>): string
    requires Count(q) <= |texts|
  {
    if q == [] then []
    else
      assert q == [q[0]] + q[1..];
      if q[0] == Placeholder then texts[0] + Substitute(q[1..], texts[1..])
      else [q[0]] + Substitute(q[1..], texts)
  }

  /** Substitution of a concatenation: the second part takes the texts after those the first
      part consumed. */
  lemma {:induction false} SubstituteSplit(a: string, b: string, texts: seq<string>)
    requires Count(a + b) <= |texts|
    ensures Count(a + b) == Count(a) + Count(b)
    ensures Substitute(a + b, texts) == Substitute(a, texts) + Substitute(b, texts[Count(a)..])
  {
    CountConcat(a, b);
    if a == [] {
      assert a + b == b;
      assert texts[0..] == texts;
    } else {
      var c := a[0];
      var tail := a[1..];
      assert a == [c] + tail;
      assert a + b == [c] + (tail + b);
      CountConcat([c], tail);
      CountOne(c);
      SubstituteCons(c, tail + b, texts);
      SubstituteCons(c, tail, texts);
      if c == Placeholder {
        SubstituteSplit(tail, b, texts[1..]);
        assert texts[1..][Count(tail)..] == texts[Count(a)..];
        ConcatAssoc(texts[0], Substitute(tail, texts[1..]), Substitute(b, texts[Count(a)..]));
      } else {
        SubstituteSplit(tail, b, texts);
        ConcatAssoc([c], Substitute(tail, texts), Substitute(b, texts[Count(a)..]));
      }
    }
  }

  lemma {:induction false} SubstituteWithoutPlaceholders(q: string, texts: seq<string>)
    requires Count(q) == 0
    ensures Substitute(q, texts) == q
  {
    if q != [] {
      assert q == [q[0]] + q[1..];
      CountConcat([q[0]], q[1..]);
      CountOne(q[0]);
      SubstituteWithoutPlaceholders(q[1..], texts);
    }
  }

  /** A single character: a placeholder becomes the first text, anything else is kept. */
  lemma SubstituteOne(c: char, texts: seq<string>)
    requires Count([c]) <= |texts|
    ensures Substitute([c], texts) == if c == Placeholder then texts[0] else [c]
  {
    CountOne(c);
    assert [c][1..] == [];
  }

  lemma SubstituteCons(c: char, post: string, texts: seq<string>)
    requires Count([c] + post) <= |texts|
    ensures c == Placeholder ==> Substitute([c] + post, texts) == texts[0] + Substitute(post, texts[1..])
    ensures c != Placeholder ==> Substitute([c] + post, texts) == [c] + Substitute(post, texts)
  {
    var q := [c] + post;
    assert q[0] == c && q[1..] == post;
  }

  /** The k-th placeholder, counting from the left, is replaced by the k-th text, and the text
      on both sides of it is substituted as before. */
  lemma KthPlaceholder(pre: string, post: string, texts: seq<string>)
    requires Count(pre + [Placeholder] + post) <= |texts|
    ensures Count(pre + [Placeholder] + post) == Count(pre) + 1 + Count(post)
    ensures Substitute(pre + [Placeholder] + post, texts)
            == Substitute(pre, texts) + texts[Count(pre)] + Substitute(post, texts[Count(pre) + 1..])
  {
    var q := [Placeholder] + post;
    assert pre + [Placeholder] + post == pre + q;
    CountConcat([Placeholder], post);
    CountOne(Placeholder);
    SubstituteSplit(pre, q, texts);
    var rest := texts[Count(pre)..];
    SubstituteCons(Placeholder, post, rest);
    assert rest[1..] == texts[Count(pre) + 1..];
    var before := Substitute(pre, texts);
    var after := Substitute(post, texts[Count(pre) + 1..]);
    assert Substitute(q, rest) == texts[Count(pre)] + after;
    ConcatAssoc(before, texts[Count(pre)], after);
  }


  /** The positional pass computes the reference substitution: given the formatted texts of
      (at least) the arguments the placeholders use, it succeeds with the substituted text
      when there are enough of them, and fails with too few parameters when every argument
      formats and there are more placeholders than arguments. */
  lemma {:induction false} PositionalSubstitutes(q: string, args: seq<NamedValue>, floats: FloatCodec, texts: seq<string>)
    requires |texts| <= |args|
    requires forall i | 0 <= i < |texts| :: FormatParam(args[i].value, floats) == Ok(texts[i])
    ensures Count(q) <= |texts| ==> Positional(q, args, floats) == Ok((Substitute(q, texts), Count(q)))
    ensures Count(q) > |texts| == |args| ==> Positional(q, args, floats) == Err(TooFewParameters)
  {
    if q != [] {
      var init := q[..|q| - 1];
      var c := q[|q| - 1];
      assert q == init + [c];
      CountConcat(init, [c]);
      CountOne(c);
      PositionalSubstitutes(init, args, floats, texts);
      if Count(q) <= |texts| {
        SubstituteSplit(init, [c], texts);
        SubstituteOne(c, texts[Count(init)..]);
      } else if |texts| == |args| && Count(init) <= |texts| {
        assert c == Placeholder && Count(init) == |args|;
      }
    }
  }

  // ---------------------------------------------------------------------------------------
  // interpolatesQuery

  /** interpolatesQuery: the named pass, whose errors come first, then the positional pass,
      then the expansion of the named tokens over the whole positional output. */
  function Interpolate(q: string, args: seq<NamedValue>, floats: FloatCodec): Result<string, Error> {
    var expander :- NamedExpander(args, floats);
    var positional :- Positional(q, args, floats);
    Ok(expander.Replace(positional.0))
  }

  /** interpolatesQuery, the rune loop appending to a buffer. On error the query is empty. */
  method InterpolatesQuery(query: string, args: seq<NamedValue>, floats: FloatCodec) returns (s: string, err: Option<Error>)
    ensures Interpolate(query, args, floats).Ok? ==> err.None? && s == Interpolate(query, args, floats).value
    ensures Interpolate(query, args, floats).Err? ==> err == Some(Interpolate(query, args, floats).error) && s == ""
  {
    var expander := BuildNamedParamExpander(args, floats);
    if expander.Err? {
      return "", Some(expander.error);
    }
    var b := "";
    var placeholderPos := 0;
    for i := 0 to |query|
      invariant Positional(query[..i], args, floats) == Ok((b, placeholderPos))
    {
      var v := query[i];
      assert query[..i + 1] == query[..i] + [v];
      if v == Placeholder {
        if |args| < placeholderPos + 1 {
          PositionalErrorPersists(query, args, floats, i + 1);
          return "", Some(TooFewParameters);
        }
        var text := FormatParam(args[placeholderPos].value, floats);
        if text.Err? {
          PositionalErrorPersists(query, args, floats, i + 1);
          return "", Some(text.error);
        }
        b := b + text.value;
        placeholderPos := placeholderPos + 1;
      } else {
        b := b + [v];
      }
    }
    assert query[..|query|] == query;
    return expander.value.Replace(b), None;
  }

  lemma {:induction false} PositionalErrorPersists(q: string, args: seq<NamedValue>, floats: FloatCodec, i: nat)
    requires i <= |q| && Positional(q[..i], args, floats).Err?
    ensures Positional(q, args, floats) == Positional(q[..i], args, floats)
    decreases |q| - i
  {
    if i < |q| {
      assert q[..i + 1][..i] == q[..i];
      PositionalErrorPersists(q, args, floats, i + 1);
    } else {
      assert q[..i] == q;
    }
  }

  /** The first argument that a placeholder takes and that does not format aborts the
      positional pass with its own error, unwrapped. */
  lemma PositionalFormatError(pre: string, post: string, args: seq<NamedValue>, floats: FloatCodec)
    requires Count(pre) < |args|
    requires forall i | 0 <= i < Count(pre) :: FormatParam(args[i].value, floats).Ok?
    requires FormatParam(args[Count(pre)].value, floats).Err?
    ensures Positional(pre + [Placeholder] + post, args, floats) == Err(FormatParam(args[Count(pre)].value, floats).error)
  {
    var texts := seq(Count(pre), i requires 0 <= i < Count(pre) => FormatParam(args[i].value, floats).value);
    PositionalSubstitutes(pre, args, floats, texts);
    var q := pre + [Placeholder] + post;
    var init := pre + [Placeholder];
    assert init[..|init| - 1] == pre;
    assert Positional(init, args, floats).Err?;
    assert q[..|init|] == init;
    PositionalErrorPersists(q, args, floats, |init|);
  }

  // ---------------------------------------------------------------------------------------
  // Properties of interpolatesQuery

  /** An error of the named pass is the result, whatever the template, even one with too few
      arguments for its placeholders. */
  lemma NamedErrorsComeFirst(q: string, args: seq<NamedValue>, floats: FloatCodec)
    requires NamedPairs(args, floats).Err?
    ensures Interpolate(q, args, floats) == Err(NamedPairs(args, floats).error)
  {
  }

  lemma NoNamesNoPairs(args: seq<NamedValue>, floats: FloatCodec)
    requires forall i | 0 <= i < |args| :: args[i].name == ""
    ensures NamedOnly(args) == [] && NamedPairs(args, floats) == Ok([])
  {
    NamedPairsSpec(args, floats);
    if NamedOnly(args) != [] {
      var named := NamedOnly(args);
      assert named[0] in NamedOnly(args);
      NamedOnlyFrom(args, named[0]);
    }
  }

  lemma {:induction false} NamedOnlyFrom(nvs: seq<NamedValue>, nv: NamedValue)
    requires nv in NamedOnly(nvs)
    ensures nv in nvs
  {
    if nvs != [] {
      var init := nvs[..|nvs| - 1];
      if nv != nvs[|nvs| - 1] {
        NamedOnlyFrom(init, nv);
        assert nv in init;
      }
    }
  }

  /** Without placeholders and without named arguments the template is returned unchanged. */
  lemma NoPlaceholdersUnchanged(q: string, args: seq<NamedValue>, floats: FloatCodec)
    requires Placeholder !in q
    requires forall i | 0 <= i < |args| :: args[i].name == ""
    ensures Interpolate(q, args, floats) == Ok(q)
  {
    CountZero(q);
    NoNamesNoPairs(args, floats);
    PositionalSubstitutes(q, args, floats, []);
    SubstituteWithoutPlaceholders(q, []);
    ReplaceWithoutPairs(q);
  }

  /** With unnamed arguments that all format, interpolation succeeds exactly when there are
      at least as many arguments as placeholders, extra arguments being no error; it is then
      the reference substitution and otherwise the too-few-parameters error. */
  lemma UnnamedInterpolation(q: string, args: seq<NamedValue>, floats: FloatCodec, texts: seq<string>)
    requires forall i | 0 <= i < |args| :: args[i].name == ""
    requires |texts| == |args|
    requires forall i | 0 <= i < |args| :: FormatParam(args[i].value, floats) == Ok(texts[i])
    ensures Count(q) <= |args| ==> Interpolate(q, args, floats) == Ok(Substitute(q, texts))
    ensures Count(q) > |args| ==> Interpolate(q, args, floats) == Err(TooFewParameters)
  {
    NoNamesNoPairs(args, floats);
    PositionalSubstitutes(q, args, floats, texts);
    if Count(q) <= |args| {
      ReplaceWithoutPairs(Substitute(q, texts));
    }
  }

  /** Two tokens of distinct names without the delimiter never overlap: neither is a prefix
      of a text that starts with the other. */
  lemma OtherTokenDoesNotMatch(n: string, m: string, rest: string)
    requires n != m && '$' !in n && '$' !in m
    ensures !IsPrefix(Token(m), Token(n) + rest)
  {
    var s := Token(n) + rest;
    var t := Token(m);
    assert s[0] == '$' && s[1..|n| + 1] == n && s[|n| + 1] == '$';
    assert t[1..|m| + 1] == m && t[|m| + 1] == '$';
    if |t| <= |s| {
      var p := s[..|t|];
      if |m| < |n| {
        assert p[|m| + 1] == n[|m|] != t[|m| + 1];
      } else if |m| == |n| {
        assert p[1..|m| + 1] == n != t[1..|m| + 1];
      } else {
        assert p[|n| + 1] == '$' != m[|n|] == t[|n| + 1];
      }
    }
  }

  /** No name contains the delimiter. */
  predicate PlainNames(nvs: seq<NamedValue>) {
    forall i | 0 <= i < |nvs| :: '$' !in nvs[i].name
  }

  /** The expansion writes a named argument's text for its token and resumes after it. */
  lemma ExpandsToken(args: seq<NamedValue>, floats: FloatCodec, pairs: seq<(string, string)>, j: nat, rest: string)
    requires NamedPairs(args, floats) == Ok(pairs) && PlainNames(NamedOnly(args))
    requires j < |NamedOnly(args)|
    ensures FormatParam(NamedOnly(args)[j].value, floats).Ok?
    ensures Replacer(pairs).Valid()
    ensures Replacer(pairs).Replace(Token(NamedOnly(args)[j].name) + rest)
            == FormatParam(NamedOnly(args)[j].value, floats).value + Replacer(pairs).Replace(rest)
  {
    NamedPairsSpec(args, floats);
    var named := NamedOnly(args);
    forall k | 0 <= k < j
      ensures !IsPrefix(pairs[k].0, pairs[j].0 + rest)
    {
      OtherTokenDoesNotMatch(named[j].name, named[k].name, rest);
    }
    ReplaceAtMatch(Replacer(pairs), j, rest);
  }

  /** Text before a token that has no delimiter in it is kept, and the token is expanded:
      the expansion reaches every token of the positional output. */
  lemma ExpandsTokenAfterPlainText(args: seq<NamedValue>, floats: FloatCodec, pairs: seq<(string, string)>,
                                   j: nat, plain: string, rest: string)
    requires NamedPairs(args, floats) == Ok(pairs) && PlainNames(NamedOnly(args))
    requires j < |NamedOnly(args)| && '$' !in plain
    ensures FormatParam(NamedOnly(args)[j].value, floats).Ok?
    ensures Replacer(pairs).Valid()
    ensures Replacer(pairs).Replace(plain + Token(NamedOnly(args)[j].name) + rest)
            == plain + FormatParam(NamedOnly(args)[j].value, floats).value + Replacer(pairs).Replace(rest)
  {
    var nv := NamedOnly(args)[j];
    var r := Replacer(pairs);
    var tail := Token(nv.name) + rest;
    ExpandsToken(args, floats, pairs, j, rest);
    var text := FormatParam(nv.value, floats).value;
    var after := r.Replace(rest);
    ReplaceAfterPlainText(r, '$', plain, tail, text + after);
    assert plain + Token(nv.name) + rest == plain + tail;
    ConcatAssoc(plain, text, after);
  }

  // ---------------------------------------------------------------------------------------
  // Cases of the interpolation

  /** One unnamed argument for a template with a single placeholder: its text is put in
      the placeholder's place and nothing else changes. */
  lemma OnePlaceholder(pre: string, post: string, args: seq<NamedValue>, floats: FloatCodec, text: string)
    requires Placeholder !in pre && Placeholder !in post
    requires |args| == 1 && args[0].name == "" && FormatParam(args[0].value, floats) == Ok(text)
    ensures Interpolate(pre + [Placeholder] + post, args, floats) == Ok(pre + text + post)
  {
    SubstituteSingle(pre, post, text);
    SingleArgument(pre + [Placeholder] + post, args, floats, text);
  }

  /** With one unnamed argument and one placeholder, the interpolation is the substitution. */
  lemma SingleArgument(q: string, args: seq<NamedValue>, floats: FloatCodec, text: string)
    requires Count(q) == 1
    requires |args| == 1 && args[0].name == "" && FormatParam(args[0].value, floats) == Ok(text)
    ensures Interpolate(q, args, floats) == Ok(Substitute(q, [text]))
  {
    var texts := [text];
    assert texts[0] == text;
    assert forall i | 0 <= i < |args| :: args[i].name == "" && FormatParam(args[i].value, floats) == Ok(texts[i]);
    NoNamesNoPairs(args, floats);
    assert NamedExpander(args, floats) == Ok(Replacer([]));
    PositionalSubstitutes(q, args, floats, texts);
    var s := Substitute(q, texts);
    assert Positional(q, args, floats) == Ok((s, 1));
    ReplaceWithoutPairs(s);
    assert Interpolate(q, args, floats) == Ok(Replacer([]).Replace(s));
  }

  lemma CountSingle(pre: string, post: string)
    requires Placeholder !in pre && Placeholder !in post
    ensures Count(pre) == 0 && Count(post) == 0 && Count(pre + [Placeholder] + post) == 1
  {
    CountZero(pre);
    CountZero(post);
    assert pre + [Placeholder] + post == pre + ([Placeholder] + post);
    CountConcat(pre, [Placeholder] + post);
    CountConcat([Placeholder], post);
    CountOne(Placeholder);
  }

  lemma SubstituteSingle(pre: string, post: string, text: string)
    requires Placeholder !in pre && Placeholder !in post
    ensures Count(pre + [Placeholder] + post) == 1
    ensures Substitute(pre + [Placeholder] + post, [text]) == pre + text + post
  {
    var texts := [text];
    CountSingle(pre, post);
    KthPlaceholder(pre, post, texts);
    var k := Count(pre);
    assert texts[k] == text;
    var none := texts[k + 1..];
    assert none == [];
    SubstituteWithoutPlaceholders(pre, texts);
    SubstituteWithoutPlaceholders(post, none);
  }

  /** A template whose only marker is one named token, with that one named argument. */
  lemma OneNamedToken(pre: string, name: string, post: string, arg: Param, floats: FloatCodec, text: string)
    requires name != "" && '$' !in name && Placeholder !in name
    requires '$' !in pre && Placeholder !in pre && '$' !in post && Placeholder !in post
    requires FormatParam(arg, floats) == Ok(text)
    ensures Interpolate(pre + Token(name) + post, [NamedValue(name, 1, arg)], floats) == Ok(pre + text + post)
  {
    var args := [NamedValue(name, 1, arg)];
    var q := pre + Token(name) + post;
    OneNamedPair(name, arg, floats, text);
    var pairs := [(Token(name), text)];
    var r := Replacer(pairs);
    assert Placeholder !in q;
    CountZero(q);
    PositionalSubstitutes(q, args, floats, []);
    SubstituteWithoutPlaceholders(q, []);
    ExpandsTokenAfterPlainText(args, floats, pairs, 0, pre, post);
    assert r.Replace(q) == pre + text + r.Replace(post);
    ReplaceAfterPlainText(r, '$', post, [], []);
    assert post + [] == post;
  }

  /** A single named argument yields its own token and text. */
  lemma OneNamedPair(name: string, arg: Param, floats: FloatCodec, text: string)
    requires name != "" && FormatParam(arg, floats) == Ok(text)
    ensures NamedOnly([NamedValue(name, 1, arg)]) == [NamedValue(name, 1, arg)]
    ensures NamedPairs([NamedValue(name, 1, arg)], floats) == Ok([(Token(name), text)])
  {
    var args := [NamedValue(name, 1, arg)];
    assert args[..0] == [];
    assert NamedOnly(args[..0]) == [];
    assert Names(args[..0]) == {};
    assert NamedPairs(args[..0], floats) == Ok([]);
    assert [] + [(Token(name), text)] == [(Token(name), text)];
  }

  /** The interpolation cases of the driver's own tests, each stated for any text before
      the placeholder that has no placeholder of its own (the tests use a WHERE clause). */
  lemma NoPlaceholderExample(floats: FloatCodec)
    ensures Interpolate("SELECT 1", [], floats) == Ok("SELECT 1")
  {
    assert Placeholder !in "SELECT 1";
    NoPlaceholdersUnchanged("SELECT 1", [], floats);
  }

  lemma IntParameterCase(pre: string, floats: FloatCodec)
    requires Placeholder !in pre
    ensures Interpolate(pre + "?", [NamedValue("", 1, PInt64(20))], floats) == Ok(pre + "20")
  {
    assert Decimal.Decimal(2) == "2";
    assert FormatInt(20) == "20";
    OnePlaceholder(pre, "", [NamedValue("", 1, PInt64(20))], floats, "20");
    assert pre + [Placeholder] + "" == pre + "?";
    assert pre + "20" + "" == pre + "20";
  }

  lemma StringParameterCase(pre: string, floats: FloatCodec)
    requires Placeholder !in pre
    ensures Interpolate(pre + "?", [NamedValue("", 1, PString("yuno"))], floats) == Ok(pre + "'yuno'")
  {
    assert Quoted("yuno") == "'yuno'";
    OnePlaceholder(pre, "", [NamedValue("", 1, PString("yuno"))], floats, "'yuno'");
    assert pre + [Placeholder] + "" == pre + "?";
    assert pre + "'yuno'" + "" == pre + "'yuno'";
  }

  /** A valuer whose Value returns the string yuno, as the test's type does. */
  lemma ValuerParameterCase(pre: string, floats: FloatCodec)
    requires Placeholder !in pre
    ensures Interpolate(pre + "?", [NamedValue("", 1, PValuer("*timestreamdriver.yuno", false, Ok(PString("yuno"))))], floats)
            == Ok(pre + "'yuno'")
  {
    var args := [NamedValue("", 1, PValuer("*timestreamdriver.yuno", false, Ok(PString("yuno"))))];
    assert Quoted("yuno") == "'yuno'";
    assert FormatParam(args[0].value, floats) == Ok("'yuno'");
    OnePlaceholder(pre, "", args, floats, "'yuno'");
    assert pre + [Placeholder] + "" == pre + "?";
    assert pre + "'yuno'" + "" == pre + "'yuno'";
  }

  lemma TooFewParametersCase(pre: string, floats: FloatCodec)
    requires Placeholder !in pre
    ensures Interpolate(pre + "?", [], floats) == Err(TooFewParameters)
  {
    CountZero(pre);
    CountConcat(pre, [Placeholder]);
    CountOne(Placeholder);
    assert pre + "?" == pre + [Placeholder];
    UnnamedInterpolation(pre + "?", [], floats, []);
  }

  /** A []string argument is of no formattable kind; its error passes through unwrapped. */
  lemma UnhandleableParameterCase(pre: string, floats: FloatCodec)
    requires Placeholder !in pre
    ensures Interpolate(pre + "?", [NamedValue("", 1, POther("[]string", false))], floats)
            == Err(UnknownParameter("[]string"))
  {
    var args := [NamedValue("", 1, POther("[]string", false))];
    CountZero(pre);
    NoNamesNoPairs(args, floats);
    PositionalFormatError(pre, "", args, floats);
    assert pre + [Placeholder] + "" == pre + "?";
  }

  /** A bare string is inserted without quotes, the same text as a plain string with them. */
  lemma BareValueExample(floats: FloatCodec)
    ensures Interpolate("ago(?)", [NamedValue("", 1, PBare(BareStringValue("7d")))], floats) == Ok("ago(7d)")
    ensures Interpolate("ago(?)", [NamedValue("", 1, PString("7d"))], floats) == Ok("ago('7d')")
  {
    BareAgo(floats);
    QuotedAgo(floats);
  }

  lemma BareAgo(floats: FloatCodec)
    ensures Interpolate("ago(?)", [NamedValue("", 1, PBare(BareStringValue("7d")))], floats) == Ok("ago(7d)")
  {
    var pre := "ago(";
    var post := ")";
    assert Placeholder !in pre && Placeholder !in post;
    var args := [NamedValue("", 1, PBare(BareStringValue("7d")))];
    assert FormatParam(args[0].value, floats) == Ok("7d");
    OnePlaceholder(pre, post, args, floats, "7d");
    assert "ago(?)" == pre + [Placeholder] + post;
    assert pre + "7d" + post == "ago(7d)";
  }

  lemma QuotedAgo(floats: FloatCodec)
    ensures Interpolate("ago(?)", [NamedValue("", 1, PString("7d"))], floats) == Ok("ago('7d')")
  {
    var pre := "ago(";
    var post := ")";
    assert Placeholder !in pre && Placeholder !in post;
    var args := [NamedValue("", 1, PString("7d"))];
    assert Quoted("7d") == "'7d'";
    assert FormatParam(args[0].value, floats) == Ok("'7d'");
    OnePlaceholder(pre, post, args, floats, "'7d'");
    assert "ago(?)" == pre + [Placeholder] + post;
    assert pre + "'7d'" + post == "ago('7d')";
  }

  /** A named token is replaced by its argument's formatted text. */
  lemma NamedParameterCase(pre: string, floats: FloatCodec)
    requires Placeholder !in pre && '$' !in pre
    ensures Interpolate(pre + "$name$", [NamedValue("name", 1, PString("yuno"))], floats) == Ok(pre + "'yuno'")
  {
    assert Token("name") == "$name$";
    assert pre + "$name$" == pre + Token("name") + "";
    assert Quoted("yuno") == "'yuno'";
    OneNamedToken(pre, "name", "", PString("yuno"), floats, "'yuno'");
    assert pre + "'yuno'" + "" == pre + "'yuno'";
  }

  /** The named expansion runs over the positional output, so a token inside the text put
      in for a placeholder is expanded too. */
  lemma ExpansionReachesInsertedText(floats: FloatCodec)
    ensures Interpolate("?", [NamedValue("", 1, PBare(BareStringValue("$x$"))), NamedValue("x", 2, PInt64(5))], floats)
            == Ok("5")
  {
    var args := [NamedValue("", 1, PBare(BareStringValue("$x$"))), NamedValue("x", 2, PInt64(5))];
    var pairs := [("$x$", "5")];
    InsertedTextPairs(args, floats);
    InsertedTextPositional(args, floats);
    ExpandsToken(args, floats, pairs, 0, []);
    var r := Replacer(pairs);
    assert Token("x") + [] == "$x$";
    assert r.Replace([]) == [];
    assert r.Replace("$x$") == "5";
  }

  lemma InsertedTextPairs(args: seq<NamedValue>, floats: FloatCodec)
    requires args == [NamedValue("", 1, PBare(BareStringValue("$x$"))), NamedValue("x", 2, PInt64(5))]
    ensures NamedOnly(args) == [args[1]]
    ensures NamedPairs(args, floats) == Ok([("$x$", "5")])
  {
    var first := args[..1];
    assert first == [args[0]] && first[..0] == [];
    assert NamedOnly(first) == [];
    assert Names(first) == {};
    assert NamedPairs(first, floats) == Ok([]);
    assert args[..|args| - 1] == first;
    assert FormatInt(5) == "5";
    assert FormatParam(args[1].value, floats) == Ok("5");
    assert Token("x") == "$x$";
    assert [] + [("$x$", "5")] == [("$x$", "5")];
  }

  lemma InsertedTextPositional(args: seq<NamedValue>, floats: FloatCodec)
    requires args == [NamedValue("", 1, PBare(BareStringValue("$x$"))), NamedValue("x", 2, PInt64(5))]
    ensures Positional("?", args, floats) == Ok(("$x$", 1))
  {
    assert FormatParam(args[0].value, floats) == Ok("$x$");
    assert [] + [Placeholder] + [] == "?";
    SubstituteSingle([], [], "$x$");
    PositionalSubstitutes("?", args, floats, ["$x$"]);
    assert [] + "$x$" + [] == "$x$";
  }
}
