/** StringExtensionMethods: the null/empty/white-space tests and the phone-number
    check, which matches the anchored pattern
      ^(\+\d{1,2}\s)?\(?\d{3}\)?[\s.-]\d{3}[\s.-]\d{4}$
    by a hand-written recogniser. */
module StringExtensions {
  import opened Errors
  import opened Text

  /** `string.IsNullOrEmpty(seed)`. */
  function IsNullOrEmpty(seed: Ref<string>): (r: bool)
    ensures r <==> seed == Null || seed == NonNull("")
  {
    match seed
    case Null => true
    case NonNull(s) => |s| == 0
  }

  /** `string.IsNullOrWhiteSpace(seed)`. */
  function IsNullOrWhitespace(seed: Ref<string>): (r: bool)
    ensures r <==> seed.Null? || forall i :: 0 <= i < |seed.value| ==> IsWhiteSpace(seed.value[i])
    ensures IsNullOrEmpty(seed) ==> r
  {
    match seed
    case Null => true
    case NonNull(s) => AllWhiteSpace(s)
  }

  // ---------------------------------------------------------------------------
  // The pattern as a finite set of templates (the reference definition)

  /** One position of the pattern. */
  datatype CharClass = Digit | Space | Separator | Literal(c: char)

  /** `[\s.-]`. */
  predicate IsSeparator(c: char) {
    IsWhiteSpace(c) || c == '.' || c == '-'
  }

  predicate InClass(c: char, k: CharClass) {
    match k
    case Digit => IsDigit(c)
    case Space => IsWhiteSpace(c)
    case Separator => IsSeparator(c)
    case Literal(l) => c == l
  }

  /** `s` is matched position by position by the template `t`. */
  predicate Fits(s: string, t: seq<CharClass>) {
    |s| == |t| && forall i :: 0 <= i < |s| ==> InClass(s[i], t[i])
  }

  /** `(\+\d{1,2}\s)?` expanded: no prefix, or "+" with one or two digits and a space. */
  function CountryTemplate(digits: nat): seq<CharClass>
    requires digits <= 2
  {
    if digits == 0 then []
    else if digits == 1 then [Literal('+'), Digit, Space]
    else [Literal('+'), Digit, Digit, Space]
  }

  /** An optional literal character: present or not. */
  function Optional(present: bool, ch: char): seq<CharClass> {
    if present then [Literal(ch)] else []
  }

  /** `\d{3}` */
  function AreaCodeTemplate(): seq<CharClass> {
    [Digit, Digit, Digit]
  }

  /** `[\s.-]\d{3}[\s.-]\d{4}` */
  function SubscriberTemplate(): seq<CharClass> {
    [Separator, Digit, Digit, Digit, Separator, Digit, Digit, Digit, Digit]
  }

  /** `\(?\d{3}\)?[\s.-]\d{3}[\s.-]\d{4}` expanded by whether each parenthesis is there. */
  function LocalTemplate(open: bool, close: bool): seq<CharClass> {
    Optional(open, '(') + (AreaCodeTemplate() + (Optional(close, ')') + SubscriberTemplate()))
  }

  /** The language of the pattern without its anchors: one of twelve templates. */
  ghost predicate InPattern(s: string) {
    exists digits: nat, open: bool, close: bool ::
      digits <= 2 && Fits(s, CountryTemplate(digits) + LocalTemplate(open, close))
  }

  // ---------------------------------------------------------------------------
  // The recogniser

  predicate AllDigits(s: string) {
    forall i :: 0 <= i < |s| ==> IsDigit(s[i])
  }

  /** How much of `s` the group `(\+\d{1,2}\s)?` takes: 0, 3 or 4 characters. */
  function CountryPrefixLength(s: string): (n: nat)
    ensures n == 0 || n == 3 || n == 4
    ensures n <= |s|
  {
    if 3 <= |s| && s[0] == '+' && IsDigit(s[1]) && IsWhiteSpace(s[2]) then 3
    else if 4 <= |s| && s[0] == '+' && IsDigit(s[1]) && IsDigit(s[2]) && IsWhiteSpace(s[3]) then 4
    else 0
  }

  /** How much an optional single character `ch` at the start of `s` takes: 0 or 1. */
  function OptionalLength(s: string, ch: char): (n: nat)
    ensures n <= 1 && n <= |s|
    ensures n == 1 <==> |s| > 0 && s[0] == ch
  {
    if |s| > 0 && s[0] == ch then 1 else 0
  }

  /** `[\s.-]\d{3}[\s.-]\d{4}` against all of `s`. */
  predicate MatchesSubscriber(s: string) {
    |s| == 9 && IsSeparator(s[0]) && AllDigits(s[1..4]) && IsSeparator(s[4]) && AllDigits(s[5..])
  }

  /** `\)?[\s.-]\d{3}[\s.-]\d{4}` against all of `s`: the parenthesis is taken when
      present, since a separator cannot match it. */
  predicate MatchesAfterAreaCode(s: string) {
    MatchesSubscriber(s[OptionalLength(s, ')')..])
  }

  /** `\(?\d{3}\)?[\s.-]\d{3}[\s.-]\d{4}` against all of `s`: the parenthesis is
      taken when present, since a digit cannot match it. */
  predicate MatchesLocalNumber(s: string) {
    var open := OptionalLength(s, '(');
    |s| >= open + 3 && AllDigits(s[open..open + 3]) && MatchesAfterAreaCode(s[open + 3..])
  }

  /** The unanchored pattern against all of `s`. */
  predicate MatchesWhole(s: string) {
    MatchesLocalNumber(s[CountryPrefixLength(s)..])
  }

  /** `Regex.IsMatch`: `$` also matches before one final '\n'; a null input throws. */
  function IsValidPhoneNumber(number: Ref<string>): (r: Result<bool>)
    ensures number.Null? <==> r.Throws?
    ensures r.Throws? ==> r.exception == ArgumentNullException("input")
    ensures r.Ok? ==> (r.value <==>
      InPattern(number.value)
      || (|number.value| > 0 && number.value[|number.value| - 1] == '\n'
          && InPattern(number.value[..|number.value| - 1])))
  {
    match number
    case Null => Throws(ArgumentNullException("input"))
    case NonNull(s) =>
      MatchesWholeIffInPattern(s);
      if |s| > 0 then MatchesWholeIffInPattern(s[..|s| - 1]);
        Ok(MatchesWhole(s) || (s[|s| - 1] == '\n' && MatchesWhole(s[..|s| - 1])))
      else Ok(false)
  }

  // ---------------------------------------------------------------------------
  // The recogniser decides the pattern

  lemma FitsSplit(s: string, a: seq<CharClass>, b: seq<CharClass>)
    requires |s| == |a| + |b|
    ensures Fits(s, a + b) <==> Fits(s[..|a|], a) && Fits(s[|a|..], b)
  {
    if Fits(s[..|a|], a) && Fits(s[|a|..], b) {
      forall i | 0 <= i < |s| ensures InClass(s[i], (a + b)[i]) {
        if i >= |a| {
          assert s[i] == s[|a|..][i - |a|];
        } else {
          assert s[i] == s[..|a|][i];
        }
      }
    }
    if Fits(s, a + b) {
      forall i | 0 <= i < |b| ensures InClass(s[|a|..][i], b[i]) {
        assert (a + b)[|a| + i] == b[i];
      }
      forall i | 0 <= i < |a| ensures InClass(s[..|a|][i], a[i]) {
        assert (a + b)[i] == a[i];
      }
    }
  }

  lemma AllDigitsIffFits(s: string, t: seq<CharClass>)
    requires |s| == |t| && forall i :: 0 <= i < |t| ==> t[i] == Digit
    ensures AllDigits(s) <==> Fits(s, t)
  {
  }

  lemma SubscriberIffTemplate(s: string)
    ensures MatchesSubscriber(s) <==> Fits(s, SubscriberTemplate())
  {
    var t := SubscriberTemplate();
    if |s| == 9 {
      assert t == [Separator] + AreaCodeTemplate() + [Separator] + [Digit, Digit, Digit, Digit];
      assert s[1..4] == s[1..][..3];
      AllDigitsIffFits(s[1..4], AreaCodeTemplate());
      AllDigitsIffFits(s[5..], [Digit, Digit, Digit, Digit]);
      FitsSplit(s, [Separator], t[1..]);
      FitsSplit(s[1..], AreaCodeTemplate(), t[4..]);
      assert s[1..][3..] == s[4..];
      FitsSplit(s[4..], [Separator], t[5..]);
      assert s[4..][1..] == s[5..];
    }
  }

  /** A literal's presence is decided by the first character whenever what follows
      the optional literal cannot start with it. */
  lemma OptionalDecided(s: string, present: bool, ch: char, rest: seq<CharClass>)
    requires Fits(s, Optional(present, ch) + rest)
    requires |rest| > 0 && !InClass(ch, rest[0])
    ensures OptionalLength(s, ch) == |Optional(present, ch)|
  {
    assert InClass(s[0], (Optional(present, ch) + rest)[0]);
  }

  lemma AfterAreaCodeIffTemplate(s: string)
    ensures MatchesAfterAreaCode(s) <==>
      exists close :: Fits(s, Optional(close, ')') + SubscriberTemplate())
  {
    var n := OptionalLength(s, ')');
    var close := n == 1;
    SubscriberIffTemplate(s[n..]);
    if MatchesAfterAreaCode(s) {
      assert Fits(s[..n], Optional(close, ')'));
      FitsSplit(s, Optional(close, ')'), SubscriberTemplate());
    }
    if exists c :: Fits(s, Optional(c, ')') + SubscriberTemplate()) {
      var c :| Fits(s, Optional(c, ')') + SubscriberTemplate());
      OptionalDecided(s, c, ')', SubscriberTemplate());
      FitsSplit(s, Optional(c, ')'), SubscriberTemplate());
    }
  }

  /** Fitting pieces concatenate to a fitting whole. */
  lemma FitsConcat(x: string, a: seq<CharClass>, y: string, b: seq<CharClass>)
    requires Fits(x, a) && Fits(y, b)
    ensures Fits(x + y, a + b)
  {
    FitsSplit(x + y, a, b);
    assert (x + y)[..|a|] == x && (x + y)[|a|..] == y;
  }

  /** A string the recogniser accepts as a local number fits one of the local templates. */
  lemma LocalNumberFitsTemplate(s: string)
    requires MatchesLocalNumber(s)
    ensures exists open, close :: Fits(s, LocalTemplate(open, close))
  {
    var n := OptionalLength(s, '(');
    var open := n == 1;
    var p, d, w := s[..n], s[n..n + 3], s[n + 3..];
    assert s == p + (d + w);
    AfterAreaCodeIffTemplate(w);
    var close :| Fits(w, Optional(close, ')') + SubscriberTemplate());
    AllDigitsIffFits(d, AreaCodeTemplate());
    assert Fits(p, Optional(open, '('));
    FitsConcat(d, AreaCodeTemplate(), w, Optional(close, ')') + SubscriberTemplate());
    FitsConcat(p, Optional(open, '('), d + w, AreaCodeTemplate() + (Optional(close, ')') + SubscriberTemplate()));
    assert Fits(s, LocalTemplate(open, close));
  }

  /** A fitting whole splits into fitting pieces. */
  lemma FitsUnconcat(s: string, a: seq<CharClass>, b: seq<CharClass>)
    requires Fits(s, a + b)
    ensures Fits(s[..|a|], a) && Fits(s[|a|..], b)
  {
    FitsSplit(s, a, b);
  }

  /** A string fitting a local template is accepted by the recogniser. */
  lemma TemplateFitsLocalNumber(s: string, open: bool, close: bool)
    requires Fits(s, LocalTemplate(open, close))
    ensures MatchesLocalNumber(s)
  {
    var after := Optional(close, ')') + SubscriberTemplate();
    var rest := AreaCodeTemplate() + after;
    OptionalDecided(s, open, '(', rest);
    var n := OptionalLength(s, '(');
    FitsUnconcat(s, Optional(open, '('), rest);
    var u := s[n..];
    FitsUnconcat(u, AreaCodeTemplate(), after);
    AllDigitsIffFits(u[..3], AreaCodeTemplate());
    assert u[..3] == s[n..n + 3] && u[3..] == s[n + 3..];
    AfterAreaCodeIffTemplate(u[3..]);
  }

  /** The local part: the recogniser accepts exactly the four local templates. */
  lemma LocalNumberIffTemplate(s: string)
    ensures MatchesLocalNumber(s) <==> exists open, close :: Fits(s, LocalTemplate(open, close))
  {
    if MatchesLocalNumber(s) {
      LocalNumberFitsTemplate(s);
    }
    if exists o, c :: Fits(s, LocalTemplate(o, c)) {
      var o, c :| Fits(s, LocalTemplate(o, c));
      TemplateFitsLocalNumber(s, o, c);
    }
  }

  /** Given a template match, the recogniser's prefix length is the template's. */
  lemma CountryPrefixOfTemplate(s: string, digits: nat, open: bool, close: bool)
    requires digits <= 2
    requires Fits(s, CountryTemplate(digits) + LocalTemplate(open, close))
    ensures CountryPrefixLength(s) == |CountryTemplate(digits)|
  {
    var t := CountryTemplate(digits) + LocalTemplate(open, close);
    var p := |CountryTemplate(digits)|;
    assert InClass(s[0], t[0]);
    assert InClass(s[p], t[p]);
    if digits == 0 {
      assert t[0] == Literal('(') || t[0] == Digit;
    } else if digits == 1 {
      assert InClass(s[1], t[1]) && InClass(s[2], t[2]);
    } else {
      assert InClass(s[1], t[1]) && InClass(s[2], t[2]) && InClass(s[3], t[3]);
    }
  }

  /** The prefix the recogniser takes fits the country template of its length. */
  lemma CountryPrefixFits(s: string)
    ensures var p := CountryPrefixLength(s);
            Fits(s[..p], CountryTemplate(if p == 0 then 0 else p - 2))
  {
    var p := CountryPrefixLength(s);
    if p == 3 {
      assert s[..3] == [s[0], s[1], s[2]];
    } else if p == 4 {
      assert s[..4] == [s[0], s[1], s[2], s[3]];
    }
  }

  /** The recogniser accepts exactly the strings of the pattern's language. */
  lemma MatchesWholeIffInPattern(s: string)
    ensures MatchesWhole(s) <==> InPattern(s)
  {
    var p := CountryPrefixLength(s);
    var digits := if p == 0 then 0 else p - 2;
    LocalNumberIffTemplate(s[p..]);
    if MatchesWhole(s) {
      var open, close :| Fits(s[p..], LocalTemplate(open, close));
      CountryPrefixFits(s);
      FitsSplit(s, CountryTemplate(digits), LocalTemplate(open, close));
      assert Fits(s, CountryTemplate(digits) + LocalTemplate(open, close));
    }
    if InPattern(s) {
      var d: nat, open, close :| d <= 2 && Fits(s, CountryTemplate(d) + LocalTemplate(open, close));
      CountryPrefixOfTemplate(s, d, open, close);
      FitsSplit(s, CountryTemplate(d), LocalTemplate(open, close));
    }
  }

  /** Ten digits run together have no separators and are rejected. */
  lemma RejectsRunTogetherDigits()
    ensures IsValidPhoneNumber(NonNull("5555555555")) == Ok(false)
  {
    assert !MatchesLocalNumber("5555555555"[CountryPrefixLength("5555555555")..]);
  }

  /** Both parentheses are accepted. */
  lemma AcceptsParenthesisedAreaCode()
    ensures IsValidPhoneNumber(NonNull("(555) 555-5555")) == Ok(true)
  {
    var s := "(555) 555-5555";
    assert CountryPrefixLength(s) == 0 && s[0..] == s;
    assert OptionalLength(s, '(') == 1;
    assert AllDigits(s[1..4]);
    var rest := s[4..];
    assert OptionalLength(rest, ')') == 1;
    assert rest[1..] == " 555-5555";
    assert MatchesSubscriber(rest[1..]);
  }

  /** A one-digit country code with '.' separators is accepted. */
  lemma AcceptsCountryCode()
    ensures IsValidPhoneNumber(NonNull("+1 555.555.5555")) == Ok(true)
  {
    var s := "+1 555.555.5555";
    assert CountryPrefixLength(s) == 3;
    var u := s[3..];
    assert u == "555.555.5555";
    assert OptionalLength(u, '(') == 0;
    assert AllDigits(u[0..3]);
    var rest := u[3..];
    assert OptionalLength(rest, ')') == 0 && rest[0..] == rest;
    assert MatchesSubscriber(rest);
  }

  /** A lone closing parenthesis and one final line break are accepted. */
  lemma AcceptsFinalLineBreak()
    ensures IsValidPhoneNumber(NonNull("555)-555-5555\n")) == Ok(true)
  {
    var s := "555)-555-5555\n";
    var t := s[..|s| - 1];
    assert t == "555)-555-5555";
    assert CountryPrefixLength(t) == 0 && t[0..] == t;
    assert OptionalLength(t, '(') == 0;
    assert AllDigits(t[0..3]);
    var rest := t[3..];
    assert OptionalLength(rest, ')') == 1;
    assert MatchesSubscriber(rest[1..]);
  }

  /** The pattern is anchored: a trailing space is rejected. */
  lemma RejectsTrailingSpace()
    ensures IsValidPhoneNumber(NonNull("555-555-5555 ")) == Ok(false)
  {
    var s := "555-555-5555 ";
    assert CountryPrefixLength(s) == 0 && s[0..] == s;
    assert OptionalLength(s, '(') == 0;
    assert OptionalLength(s[3..], ')') == 0;
    assert |s[3..][0..]| == 10;
  }
}
