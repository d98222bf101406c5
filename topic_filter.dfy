/**
 * TopicFilter: a whitelist or blacklist of topics given as a regular
 * expression. Regular-expression compilation and matching are external
 * (the isValid and matches parameters); the model states what pattern each
 * filter hands to them.
 */
module TopicFilters {
  import opened Wrappers
  import opened Errors

  /** s with every occurrence of c replaced by d. */
  function ReplaceChar(s: string, c: char, d: char): (r: string)
    ensures |r| == |s|
  {
    if s == [] then [] else [if s[0] == c then d else s[0]] + ReplaceChar(s[1..], c, d)
  }

  /** s with every occurrence of c removed. */
  function RemoveChar(s: string, c: char): string
  {
    if s == [] then [] else (if s[0] == c then [] else [s[0]]) + RemoveChar(s[1..], c)
  }

  function Count(s: string, c: char): nat
  {
    if s == [] then 0 else (if s[0] == c then 1 else 0) + Count(s[1..], c)
  }

  lemma {:induction false} ReplaceCharFacts(s: string, c: char, d: char)
    requires c != d
    ensures c !in ReplaceChar(s, c, d)
    ensures d in ReplaceChar(s, c, d) <==> c in s || d in s
    ensures forall x :: x != c && x != d ==> (x in ReplaceChar(s, c, d) <==> x in s)
    ensures c !in s ==> ReplaceChar(s, c, d) == s
  {
    if s != [] {
      var h, t := if s[0] == c then d else s[0], ReplaceChar(s[1..], c, d);
      assert ReplaceChar(s, c, d) == [h] + t;
      assert forall x :: x in [h] + t <==> x == h || x in t;
      assert forall x :: x in s <==> x == s[0] || x in s[1..] by {
        assert s == [s[0]] + s[1..];
      }
      ReplaceCharFacts(s[1..], c, d);
    }
  }

  lemma {:induction false} RemoveCharFacts(s: string, c: char)
    ensures c !in RemoveChar(s, c)
    ensures forall x :: x != c ==> (x in RemoveChar(s, c) <==> x in s)
    ensures |RemoveChar(s, c)| == |s| - Count(s, c)
    ensures c !in s ==> RemoveChar(s, c) == s
  {
    if s != [] {
      RemoveCharFacts(s[1..], c);
    }
  }

  datatype TopicFilter = Whitelist(rawRegexp: string) | Blacklist(rawRegexp: string)

  /** Regex: the raw expression with each ',' turned into '|' and each ' ' dropped. */
  function Regex(f: TopicFilter): (r: string)
    ensures ',' !in r && ' ' !in r
    ensures |r| <= |f.rawRegexp|
  {
    ReplaceCharFacts(f.rawRegexp, ',', '|');
    RemoveCharFacts(ReplaceChar(f.rawRegexp, ',', '|'), ' ');
    RemoveChar(ReplaceChar(f.rawRegexp, ',', '|'), ' ')
  }

  /**
   * What the rewrite does: no ',' or ' ' is left, '|' appears where a ','
   * or '|' was, every other character is kept, only spaces are lost, and
   * an expression without ',' or ' ' is left as it is.
   */
  lemma RegexRewrite(f: TopicFilter)
    ensures ',' !in Regex(f) && ' ' !in Regex(f)
    ensures '|' in Regex(f) <==> ',' in f.rawRegexp || '|' in f.rawRegexp
    ensures forall x :: x != ',' && x != ' ' && x != '|' ==> (x in Regex(f) <==> x in f.rawRegexp)
    ensures |Regex(f)| == |f.rawRegexp| - Count(f.rawRegexp, ' ')
    ensures ',' !in f.rawRegexp && ' ' !in f.rawRegexp ==> Regex(f) == f.rawRegexp
  {
    var replaced := ReplaceChar(f.rawRegexp, ',', '|');
    ReplaceCharFacts(f.rawRegexp, ',', '|');
    RemoveCharFacts(replaced, ' ');
    CountReplaced(f.rawRegexp);
  }

  lemma {:induction false} CountReplaced(s: string)
    ensures Count(ReplaceChar(s, ',', '|'), ' ') == Count(s, ' ')
  {
    if s != [] {
      CountReplaced(s[1..]);
    }
  }

  /** Rewriting is idempotent: the rewritten expression of a rewritten expression is itself. */
  lemma RegexIdempotent(f: TopicFilter)
    ensures Regex(Whitelist(Regex(f))) == Regex(f)
    ensures Regex(Blacklist(Regex(f))) == Regex(f)
  {
    RegexRewrite(f);
    RegexRewrite(Whitelist(Regex(f)));
    RegexRewrite(Blacklist(Regex(f)));
  }

  /**
   * The Whitelist and Blacklist constructors: the raw expression must
   * compile (null does not), otherwise the message is the expression
   * followed by "is an invalid regex." (with no space between).
   */
  function NewFilter(blacklist: bool, rawRegexp: Option<string>, isValid: string -> bool): (r: Result<TopicFilter, Error>)
    ensures r.Ok? <==> rawRegexp.Some? && isValid(rawRegexp.value)
    ensures r.Ok? ==> r.value.rawRegexp == rawRegexp.value && (r.value.Blacklist? <==> blacklist)
    ensures r.Err? && rawRegexp.Some? ==> r.error == InvalidRegex(rawRegexp.value + "is an invalid regex.")
    ensures r.Err? && rawRegexp.None? ==> r.error == InvalidRegex("is an invalid regex.")
  {
    match rawRegexp
    case None => Err(InvalidRegex("is an invalid regex."))
    case Some(raw) =>
      if !isValid(raw) then Err(InvalidRegex(raw + "is an invalid regex."))
      else if blacklist then Ok(Blacklist(raw)) else Ok(Whitelist(raw))
  }

  /**
   * new Regex(pattern): an ArgumentException carrying the pattern when it
   * does not compile (the framework's own message is not modelled).
   */
  function Compile(pattern: string, isValid: string -> bool): (r: Result<string, Error>)
    ensures r.Ok? <==> isValid(pattern)
    ensures r.Ok? ==> r.value == pattern
    ensures r.Err? ==> r.error == ArgumentError(pattern)
  {
    if isValid(pattern) then Ok(pattern) else Err(ArgumentError(pattern))
  }

  /**
   * IsTopicAllowed as written: a whitelist compiles and matches the
   * rewritten Regex, a blacklist compiles the raw expression and rejects
   * its matches. Only where the rewrite changes nothing do both kinds test
   * the same pattern; the whitelist's pattern is one the constructor never
   * checked, so it can fail to compile.
   */
  function IsTopicAllowedAsWritten(f: TopicFilter, topic: string, isValid: string -> bool,
                                   matches: (string, string) -> bool): (r: Result<bool, Error>)
    ensures f.Whitelist? ==> (r.Err? <==> !isValid(Regex(f)))
    ensures f.Blacklist? ==> (r.Err? <==> !isValid(f.rawRegexp))
    ensures r.Err? ==> r.error.ArgumentError?
    ensures ',' !in f.rawRegexp && ' ' !in f.rawRegexp && isValid(f.rawRegexp) ==>
      r == Ok(f.Whitelist? == matches(f.rawRegexp, topic))
  {
    RegexRewrite(f);
    match f
    case Whitelist(_) =>
      var compiled := Compile(Regex(f), isValid);
      if compiled.Err? then Err(compiled.error) else Ok(matches(compiled.value, topic))
    case Blacklist(raw) =>
      var compiled := Compile(raw, isValid);
      if compiled.Err? then Err(compiled.error) else Ok(!matches(compiled.value, topic))
  }

  /**
   * IsTopicAllowed with the blacklist compiling and matching the same
   * rewritten Regex as the whitelist, so that a comma-separated list means
   * the same to both.
   */
  function IsTopicAllowed(f: TopicFilter, topic: string, isValid: string -> bool,
                          matches: (string, string) -> bool): (r: Result<bool, Error>)
    ensures r.Err? <==> !isValid(Regex(f))
    ensures f.Whitelist? ==> r == IsTopicAllowedAsWritten(f, topic, isValid, matches)
    ensures f.Blacklist? ==>
      var w := IsTopicAllowedAsWritten(Whitelist(f.rawRegexp), topic, isValid, matches);
      (r.Ok? <==> w.Ok?) && (r.Ok? ==> r.value == !w.value)
  {
    var compiled := Compile(Regex(f), isValid);
    if compiled.Err? then Err(compiled.error)
    else match f
      case Whitelist(_) => Ok(matches(compiled.value, topic))
      case Blacklist(_) => Ok(!matches(compiled.value, topic))
  }

  /** A whitelist and a blacklist of the same expression split every topic between them. */
  lemma BlacklistComplementsWhitelist(raw: string, topic: string, isValid: string -> bool, matches: (string, string) -> bool)
    ensures IsTopicAllowed(Blacklist(raw), topic, isValid, matches).Ok? <==> IsTopicAllowed(Whitelist(raw), topic, isValid, matches).Ok?
    ensures IsTopicAllowed(Blacklist(raw), topic, isValid, matches).Ok? ==>
      (IsTopicAllowed(Blacklist(raw), topic, isValid, matches).value <==> !IsTopicAllowed(Whitelist(raw), topic, isValid, matches).value)
    ensures IsTopicAllowed(Whitelist(raw), topic, isValid, matches) == IsTopicAllowedAsWritten(Whitelist(raw), topic, isValid, matches)
  {
  }

  /**
   * The written blacklist agrees with that only on expressions the rewrite
   * leaves alone. For "a,b" and topic "b" (the pattern "a|b" matches "b",
   * the literal "a,b" does not), the written whitelist and blacklist both
   * allow the topic.
   */
  lemma BlacklistIgnoresCommas(isValid: string -> bool, matches: (string, string) -> bool)
    requires isValid("a|b") && isValid("a,b")
    requires matches("a|b", "b") && !matches("a,b", "b")
    ensures IsTopicAllowedAsWritten(Whitelist("a,b"), "b", isValid, matches) == Ok(true)
    ensures IsTopicAllowedAsWritten(Blacklist("a,b"), "b", isValid, matches) == Ok(true)
    ensures IsTopicAllowed(Blacklist("a,b"), "b", isValid, matches) == Ok(false)
  {
    assert ReplaceChar("a,b", ',', '|') == "a|b";
    assert RemoveChar("a|b", ' ') == "a|b";
  }

  lemma AsWrittenAgreesWithoutRewrite(f: TopicFilter, topic: string, isValid: string -> bool, matches: (string, string) -> bool)
    requires ',' !in f.rawRegexp && ' ' !in f.rawRegexp
    ensures IsTopicAllowedAsWritten(f, topic, isValid, matches) == IsTopicAllowed(f, topic, isValid, matches)
  {
    RegexRewrite(f);
  }

  /**
   * The constructor checks only the raw expression, so a whitelist it
   * accepts can still throw: " +" compiles, its rewrite "+" does not.
   */
  lemma WhitelistRewriteCanThrow(isValid: string -> bool, matches: (string, string) -> bool)
    requires isValid(" +") && !isValid("+")
    ensures NewFilter(false, Some(" +"), isValid) == Ok(Whitelist(" +"))
    ensures IsTopicAllowedAsWritten(Whitelist(" +"), "t", isValid, matches) == Err(ArgumentError("+"))
  {
    assert ReplaceChar(" +", ',', '|') == " +";
    assert RemoveChar(" +", ' ') == "+" by {
      assert RemoveChar("+", ' ') == "+";
    }
  }

  /**
   * The constructors checking the pattern IsTopicAllowed compiles as well
   * as the raw one: the same filters and messages as NewFilter, except that
   * an expression whose rewrite does not compile is refused with the
   * rewritten pattern's ArgumentException.
   */
  function NewFilterChecked(blacklist: bool, rawRegexp: Option<string>, isValid: string -> bool): (r: Result<TopicFilter, Error>)
    ensures r.Ok? <==> NewFilter(blacklist, rawRegexp, isValid).Ok? && isValid(Regex(NewFilter(blacklist, rawRegexp, isValid).value))
    ensures r.Ok? ==> r == NewFilter(blacklist, rawRegexp, isValid)
    ensures NewFilter(blacklist, rawRegexp, isValid).Err? ==> r == NewFilter(blacklist, rawRegexp, isValid)
  {
    var built := NewFilter(blacklist, rawRegexp, isValid);
    if built.Err? then built
    else
      var compiled := Compile(Regex(built.value), isValid);
      if compiled.Err? then Err(compiled.error) else built
  }

  /** A filter the checked constructors build decides every topic, by either kind of test. */
  lemma CheckedFilterNeverThrows(blacklist: bool, rawRegexp: Option<string>, topic: string,
                                 isValid: string -> bool, matches: (string, string) -> bool)
    requires NewFilterChecked(blacklist, rawRegexp, isValid).Ok?
    ensures IsTopicAllowed(NewFilterChecked(blacklist, rawRegexp, isValid).value, topic, isValid, matches).Ok?
    ensures IsTopicAllowedAsWritten(NewFilterChecked(blacklist, rawRegexp, isValid).value, topic, isValid, matches).Ok?
  {
  }

  /** ToString(): "Regex: " and then the rewritten expression. */
  function ToString(f: TopicFilter): (r: string)
    ensures |r| >= 7 && r[..7] == "Regex: "
    ensures ',' !in r[7..] && ' ' !in r[7..]
  {
    var r := "Regex: " + Regex(f);
    assert r[7..] == Regex(f);
    r
  }

  /**
   * The text after "Regex: " is the rewritten expression: '|' where the
   * raw one had ',' or '|', every other character but the spaces kept, and
   * the raw expression itself when it has no ',' or ' '.
   */
  lemma ToStringShowsRewrite(f: TopicFilter)
    ensures ToString(f)[7..] == Regex(f)
    ensures '|' in ToString(f)[7..] <==> ',' in f.rawRegexp || '|' in f.rawRegexp
    ensures forall x :: x != ',' && x != ' ' && x != '|' ==> (x in ToString(f)[7..] <==> x in f.rawRegexp)
    ensures |ToString(f)| == 7 + |f.rawRegexp| - Count(f.rawRegexp, ' ')
    ensures ',' !in f.rawRegexp && ' ' !in f.rawRegexp ==> ToString(f) == "Regex: " + f.rawRegexp
  {
    RegexRewrite(f);
    assert ToString(f)[7..] == Regex(f);
  }

  /** For the list "a, b" the text is "Regex: a|b". */
  lemma ToStringOfList()
    ensures ToString(Whitelist("a, b")) == "Regex: a|b"
  {
    var raw := "a, b";
    assert raw[1..] == ", b" && raw[1..][1..] == " b" && raw[1..][1..][1..] == "b";
    assert ReplaceChar("b", ',', '|') == "b";
    assert ReplaceChar(" b", ',', '|') == " b";
    assert ReplaceChar(", b", ',', '|') == "| b";
    assert ReplaceChar(raw, ',', '|') == "a| b";
    var replaced := "a| b";
    assert replaced[1..] == "| b" && replaced[1..][1..] == " b" && replaced[1..][1..][1..] == "b";
    assert RemoveChar("b", ' ') == "b";
    assert RemoveChar(" b", ' ') == "b";
    assert RemoveChar("| b", ' ') == "|b";
    assert RemoveChar(replaced, ' ') == "a|b";
  }

}
