/** The phone-number format check of `crm/schema.py`: the pattern
    `^(\+?\d[\d\-]{6,}\d)$`, applied with `re.match`, written as a plain
    predicate on strings. */
module Phone {
  import opened Text

  predicate IsDigitOrHyphen(c: char) {
    IsDigit(c) || c == '-'
  }

  /** `\d[\d\-]{6,}\d`: a digit, at least six digits or hyphens, a digit. */
  predicate Body(s: string) {
    && |s| >= 8
    && IsDigit(s[0])
    && IsDigit(s[|s| - 1])
    && forall i | 1 <= i < |s| - 1 :: IsDigitOrHyphen(s[i])
  }

  /** `\+?` followed by the body. A leading `+` can only be taken by `\+?`,
      since neither `\d` nor `[\d\-]` accepts it. */
  predicate Shape(s: string) {
    Body(s) || (|s| > 0 && s[0] == '+' && Body(s[1..]))
  }

  /** What `PHONE_REGEX.match(s)` accepts. Without the MULTILINE flag,
      Python's `$` matches at the end of the string and also just before a
      newline that ends it, so one trailing newline is let through. */
  predicate Matches(s: string): (r: bool)
    ensures r ==> |s| >= 8 && (s[0] == '+' || IsDigit(s[0]))
    ensures r ==> forall i | 0 <= i < |s| ::
                    IsDigitOrHyphen(s[i]) || (i == 0 && s[i] == '+') || (i == |s| - 1 && s[i] == '\n')
  {
    Shape(s) || (|s| > 0 && s[|s| - 1] == '\n' && Shape(s[..|s| - 1]))
  }

  /** The pieces of an accepted number: an optional sign, a first digit, the
      middle run of digits and hyphens, a last digit. */
  predicate SplitsAs(s: string, sign: string, first: char, middle: string, last: char) {
    && (sign == "" || sign == "+")
    && IsDigit(first)
    && |middle| >= 6
    && (forall i | 0 <= i < |middle| :: IsDigitOrHyphen(middle[i]))
    && IsDigit(last)
    && s == sign + [first] + middle + [last]
  }

  /** Every string assembled from the pieces has the accepted shape. */
  lemma ShapeOfParts(sign: string, first: char, middle: string, last: char)
    requires SplitsAs(sign + [first] + middle + [last], sign, first, middle, last)
    ensures Shape(sign + [first] + middle + [last])
  {
    var body := [first] + middle + [last];
    assert forall i | 1 <= i < |body| - 1 :: body[i] == middle[i - 1];
    assert Body(body);
    if sign == "+" {
      assert (sign + body)[1..] == body;
    } else {
      assert sign + body == body;
    }
    assert sign + [first] + middle + [last] == sign + body;
  }

  /** A body splits into its first digit, its middle run and its last digit. */
  lemma BodySplits(body: string)
    requires Body(body)
    ensures SplitsAs(body, "", body[0], body[1..|body| - 1], body[|body| - 1])
  {
    var middle := body[1..|body| - 1];
    assert forall i | 0 <= i < |middle| :: middle[i] == body[i + 1];
    assert body == [body[0]] + middle + [body[|body| - 1]];
  }

  /** Every string of the accepted shape splits into the pieces. */
  lemma PartsOfShape(s: string)
    requires Shape(s)
    ensures exists sign, first, middle, last :: SplitsAs(s, sign, first, middle, last)
  {
    if Body(s) {
      BodySplits(s);
    } else {
      var body := s[1..];
      BodySplits(body);
      var middle := body[1..|body| - 1];
      assert s == "+" + body;
      assert SplitsAs(s, "+", body[0], middle, body[|body| - 1]);
    }
  }

  /** The accepted shape never ends in a newline, so `Matches` is `Shape`
      after dropping at most one final newline. */
  lemma MatchesIffShapeWithoutFinalNewline(s: string)
    ensures Matches(s) <==>
              if |s| > 0 && s[|s| - 1] == '\n' then Shape(s[..|s| - 1]) else Shape(s)
  {
  }

  /** The two phone numbers the seeding script stores are accepted. */
  lemma SeedNumbersAccepted()
    ensures Matches("+123456789")
    ensures Matches("123-456-7890")
  {
    var a := "+123456789";
    assert Body(a[1..]) by {
      assert a[1..] == "123456789";
    }
    var b := "123-456-7890";
    assert forall i | 1 <= i < |b| - 1 :: IsDigitOrHyphen(b[i]);
  }

  /** A number followed by one newline passes the check, and is stored with
      the newline. */
  lemma TrailingNewlineAccepted()
    ensures Matches("123-456-7890\n")
    ensures !Matches("123-456-7890\n\n")
  {
    var b := "123-456-7890\n";
    assert b[..|b| - 1] == "123-456-7890";
    var c := "123-456-7890";
    assert forall i | 1 <= i < |c| - 1 :: IsDigitOrHyphen(c[i]);
  }

  /** Strings the pattern refuses: too short, a stray letter, a hyphen at
      either end of the body, a second sign. */
  lemma MalformedNumbersRejected()
    ensures !Matches("1234567")
    ensures !Matches("+1234567")
    ensures !Matches("12345a78")
    ensures !Matches("-12345678")
    ensures !Matches("12345678-")
    ensures !Matches("++12345678")
    ensures !Matches("1234 5678")
  {
    assert "12345a78"[5] == 'a';
    assert "1234 5678"[4] == ' ';
    assert "++12345678"[1..][0] == '+';
  }
}
