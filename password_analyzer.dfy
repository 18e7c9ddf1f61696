/**
 * The password analyzer: five-criterion strength check, password generation with
 * one character from each class, and the k-anonymity breach check against the
 * Have I Been Pwned range API (the digest is SHA-1 as in FIPS 180-4; only its
 * first five hex characters leave the process).
 */
module PasswordAnalysis {
  import opened Common
  import opened Text

  const DefaultMinLength: nat := 8
  const PwnedRangeApi: string := "https://api.pwnedpasswords.com/range/"

  /** `string.ascii_lowercase`, `string.ascii_uppercase` and `string.digits`. */
  const LowercaseLetters: string := CharRange('a', 26)
  const UppercaseLetters: string := CharRange('A', 26)
  const DigitChars: string := CharRange('0', 10)
  /** The special characters the generator draws from and the strength check looks for. */
  const SpecialChars: string := "!@#$%^&*(),.?\":{}|<>_"
  const AllChars: string := LowercaseLetters + UppercaseLetters + DigitChars + SpecialChars

  /** The character class `[!@#$%^&*(),.?":{}|<>_]` of the strength check. */
  predicate IsSpecial(c: char)
  {
    c == '!' || c == '@' || c == '#' || c == '$' || c == '%' || c == '^' || c == '&'
    || c == '*' || c == '(' || c == ')' || c == ',' || c == '.' || c == '?' || c == '\"'
    || c == ':' || c == '{' || c == '}' || c == '|' || c == '<' || c == '>' || c == '_'
  }

  lemma SpecialCharsAreSpecial(c: char)
    ensures c in SpecialChars <==> IsSpecial(c)
  {
  }

  /** The `n` consecutive characters from `first` on. */
  function CharRange(first: char, n: nat): (s: string)
    requires first as int + n <= 0xD800
    ensures |s| == n
    ensures forall k :: 0 <= k < n ==> s[k] as int == first as int + k
  {
    if n == 0 then [] else CharRange(first, n - 1) + [(first as int + n - 1) as char]
  }

  /** Membership in the generator's alphabet is membership in one of the four classes. */
  predicate InSomeClass(c: char)
  {
    IsAsciiLower(c) || IsAsciiUpper(c) || IsAsciiDigit(c) || IsSpecial(c)
  }

  lemma InCharRange(first: char, n: nat, c: char)
    requires first as int + n <= 0xD800
    ensures c in CharRange(first, n) <==> first as int <= c as int < first as int + n
  {
    var r := CharRange(first, n);
    if first as int <= c as int < first as int + n {
      assert r[c as int - first as int] == c;
    }
  }

  lemma AllCharsIsUnionOfClasses(c: char)
    ensures c in AllChars <==> InSomeClass(c)
  {
    InCharRange('a', 26, c);
    InCharRange('A', 26, c);
    InCharRange('0', 10, c);
    SpecialCharsAreSpecial(c);
    assert c in AllChars <==> c in LowercaseLetters || c in UppercaseLetters || c in DigitChars || c in SpecialChars;
  }

  predicate HasUpper(p: string) { exists k :: 0 <= k < |p| && IsAsciiUpper(p[k]) }
  predicate HasLower(p: string) { exists k :: 0 <= k < |p| && IsAsciiLower(p[k]) }
  predicate HasDigit(p: string) { exists k :: 0 <= k < |p| && IsAsciiDigit(p[k]) }
  predicate HasSpecial(p: string) { exists k :: 0 <= k < |p| && IsSpecial(p[k]) }

  // ------------------------------------------------------------ strength

  /** The five criteria of the strength check, each worth one point. */
  datatype Criterion = MinLength | Uppercase | Lowercase | Number | Special

  /** The order in which the check tests the criteria and reports the unmet ones. */
  const Criteria: seq<Criterion> := [MinLength, Uppercase, Lowercase, Number, Special]

  predicate Meets(minLength: nat, p: string, c: Criterion)
  {
    match c
    case MinLength => |p| >= minLength
    case Uppercase => HasUpper(p)
    case Lowercase => HasLower(p)
    case Number => HasDigit(p)
    case Special => HasSpecial(p)
  }

  /** The feedback line for an unmet criterion. */
  function Message(minLength: nat, c: Criterion): string
  {
    match c
    case MinLength => "Password should be at least " + NatToString(minLength) + " characters long"
    case Uppercase => "Add uppercase letters"
    case Lowercase => "Add lowercase letters"
    case Number => "Add numbers"
    case Special => "Add special characters"
  }

  /** One point for a met criterion; the criterion itself, reported, when it is missed. */
  function Point(met: bool): nat { if met then 1 else 0 }
  function Miss(met: bool, c: Criterion): seq<Criterion> { if met then [] else [c] }

  /** The criteria of `cs` that `p` meets, counted. */
  function MetCount(minLength: nat, p: string, cs: seq<Criterion>): nat
  {
    if cs == [] then 0 else Point(Meets(minLength, p, cs[0])) + MetCount(minLength, p, cs[1..])
  }

  /** The criteria of `cs` that `p` does not meet, in the order of `cs`. */
  function Unmet(minLength: nat, p: string, cs: seq<Criterion>): seq<Criterion>
  {
    if cs == [] then []
    else Miss(Meets(minLength, p, cs[0]), cs[0]) + Unmet(minLength, p, cs[1..])
  }

  function Messages(minLength: nat, cs: seq<Criterion>): (ms: seq<string>)
    ensures |ms| == |cs|
  {
    if cs == [] then [] else [Message(minLength, cs[0])] + Messages(minLength, cs[1..])
  }

  /** The strength score: one point per criterion met. */
  function Score(minLength: nat, p: string): nat
  {
    MetCount(minLength, p, Criteria)
  }

  /** The feedback: one message per unmet criterion, in the check's order. */
  function Feedback(minLength: nat, p: string): seq<string>
  {
    Messages(minLength, Unmet(minLength, p, Criteria))
  }


  /** The feedback one criterion contributes: nothing when met, its message when missed. */
  function Report(minLength: nat, met: bool, c: Criterion): seq<string>
  {
    if met then [] else [Message(minLength, c)]
  }

  /** The score, criterion by criterion in the check's order. */
  lemma ScoreUnfold(minLength: nat, p: string)
    ensures Score(minLength, p) ==
      Point(|p| >= minLength) + Point(HasUpper(p)) + Point(HasLower(p)) + Point(HasDigit(p)) + Point(HasSpecial(p))
  {
    var c0 := Criteria;
    var c1, c2, c3, c4 := c0[1..], c0[2..], c0[3..], c0[4..];
    assert c0[0] == MinLength && c1[0] == Uppercase && c2[0] == Lowercase && c3[0] == Number && c4[0] == Special;
    assert c1 == c0[1..] && c2 == c1[1..] && c3 == c2[1..] && c4 == c3[1..] && c4[1..] == [];
    assert MetCount(minLength, p, c4) == Point(HasSpecial(p));
    assert MetCount(minLength, p, c3) == Point(HasDigit(p)) + MetCount(minLength, p, c4);
    assert MetCount(minLength, p, c2) == Point(HasLower(p)) + MetCount(minLength, p, c3);
    assert MetCount(minLength, p, c1) == Point(HasUpper(p)) + MetCount(minLength, p, c2);
  }

  /** The unmet criteria, criterion by criterion in the check's order. */
  lemma UnmetUnfold(minLength: nat, p: string)
    ensures Unmet(minLength, p, Criteria) ==
      Miss(|p| >= minLength, MinLength) + Miss(HasUpper(p), Uppercase) + Miss(HasLower(p), Lowercase)
      + Miss(HasDigit(p), Number) + Miss(HasSpecial(p), Special)
  {
    var c0 := Criteria;
    var c1, c2, c3, c4 := c0[1..], c0[2..], c0[3..], c0[4..];
    assert c0[0] == MinLength && c1[0] == Uppercase && c2[0] == Lowercase && c3[0] == Number && c4[0] == Special;
    assert c1 == c0[1..] && c2 == c1[1..] && c3 == c2[1..] && c4 == c3[1..] && c4[1..] == [];
    assert Unmet(minLength, p, c4) == Miss(HasSpecial(p), Special);
    assert Unmet(minLength, p, c3) == Miss(HasDigit(p), Number) + Unmet(minLength, p, c4);
    assert Unmet(minLength, p, c2) == Miss(HasLower(p), Lowercase) + Unmet(minLength, p, c3);
    assert Unmet(minLength, p, c1) == Miss(HasUpper(p), Uppercase) + Unmet(minLength, p, c2);
  }

  /** The feedback, criterion by criterion in the check's order. */
  lemma FeedbackUnfold(minLength: nat, p: string)
    ensures Feedback(minLength, p) ==
      Report(minLength, |p| >= minLength, MinLength) + Report(minLength, HasUpper(p), Uppercase)
      + Report(minLength, HasLower(p), Lowercase) + Report(minLength, HasDigit(p), Number)
      + Report(minLength, HasSpecial(p), Special)
  {
    UnmetUnfold(minLength, p);
    var m0, m1, m2, m3, m4 := Miss(|p| >= minLength, MinLength), Miss(HasUpper(p), Uppercase),
      Miss(HasLower(p), Lowercase), Miss(HasDigit(p), Number), Miss(HasSpecial(p), Special);
    MessagesAppend(minLength, m0 + m1 + m2 + m3, m4);
    MessagesAppend(minLength, m0 + m1 + m2, m3);
    MessagesAppend(minLength, m0 + m1, m2);
    MessagesAppend(minLength, m0, m1);
    MessagesOfMiss(minLength, |p| >= minLength, MinLength);
    MessagesOfMiss(minLength, HasUpper(p), Uppercase);
    MessagesOfMiss(minLength, HasLower(p), Lowercase);
    MessagesOfMiss(minLength, HasDigit(p), Number);
    MessagesOfMiss(minLength, HasSpecial(p), Special);
  }

  lemma MessagesOfMiss(minLength: nat, met: bool, c: Criterion)
    ensures Messages(minLength, Miss(met, c)) == Report(minLength, met, c)
  {
    if !met {
      assert Miss(met, c)[1..] == [];
    }
  }

  lemma {:induction false} MessagesAppend(minLength: nat, cs: seq<Criterion>, ds: seq<Criterion>)
    ensures Messages(minLength, cs + ds) == Messages(minLength, cs) + Messages(minLength, ds)
  {
    if cs == [] {
      assert cs + ds == ds;
    } else {
      MessagesAppend(minLength, cs[1..], ds);
      assert (cs + ds)[0] == cs[0];
      assert (cs + ds)[1..] == cs[1..] + ds;
      calc {
        Messages(minLength, cs + ds);
        [Message(minLength, cs[0])] + Messages(minLength, cs[1..] + ds);
        [Message(minLength, cs[0])] + (Messages(minLength, cs[1..]) + Messages(minLength, ds));
        ([Message(minLength, cs[0])] + Messages(minLength, cs[1..])) + Messages(minLength, ds);
      }
    }
  }

  /** Every criterion is either counted or reported, never both. */
  lemma {:induction false} MetAndUnmetPartition(minLength: nat, p: string, cs: seq<Criterion>)
    ensures MetCount(minLength, p, cs) + |Unmet(minLength, p, cs)| == |cs|
    ensures forall c :: c in Unmet(minLength, p, cs) <==> c in cs && !Meets(minLength, p, c)
  {
    if cs != [] {
      MetAndUnmetPartition(minLength, p, cs[1..]);
      assert cs == [cs[0]] + cs[1..];
    }
  }

  /** The score lies in 0..5 and the score plus the number of feedback messages is always 5. */
  lemma ScorePlusFeedbackIsFive(minLength: nat, p: string)
    ensures 0 <= Score(minLength, p) <= 5
    ensures Score(minLength, p) + |Feedback(minLength, p)| == 5
  {
    MetAndUnmetPartition(minLength, p, Criteria);
    assert |Feedback(minLength, p)| == |Unmet(minLength, p, Criteria)|;
  }

  /** A full score means no feedback and every criterion met. */
  lemma FullScoreIffAllMet(minLength: nat, p: string)
    ensures Score(minLength, p) == 5 <==> Feedback(minLength, p) == []
    ensures Score(minLength, p) == 5 <==> forall c :: Meets(minLength, p, c)
  {
    ScoreUnfold(minLength, p);
    UnmetUnfold(minLength, p);
    assert |Feedback(minLength, p)| == |Unmet(minLength, p, Criteria)|;
    if Score(minLength, p) == 5 {
      forall c ensures Meets(minLength, p, c) {
        match c
        case MinLength =>
        case Uppercase =>
        case Lowercase =>
        case Number =>
        case Special =>
      }
    }
    if forall c :: Meets(minLength, p, c) {
      assert Meets(minLength, p, MinLength) && Meets(minLength, p, Uppercase) && Meets(minLength, p, Lowercase);
      assert Meets(minLength, p, Number) && Meets(minLength, p, Special);
    }
  }

  /** The empty password scores 0 and gets all five messages in order (for any positive minimum length). */
  lemma EmptyPasswordScoresZero(minLength: nat)
    requires minLength >= 1
    ensures Score(minLength, "") == 0
    ensures Feedback(minLength, "") == [
      "Password should be at least " + NatToString(minLength) + " characters long",
      "Add uppercase letters", "Add lowercase letters", "Add numbers", "Add special characters"]
  {
    ScoreUnfold(minLength, "");
    FeedbackUnfold(minLength, "");
  }

  /** Appending characters keeps every criterion that was met. */
  lemma ExtendingKeepsCriteria(minLength: nat, p: string, q: string, c: Criterion)
    requires Meets(minLength, p, c)
    ensures Meets(minLength, p + q, c)
  {
    var s := p + q;
    match c
    case MinLength =>
    case Uppercase => var k :| 0 <= k < |p| && IsAsciiUpper(p[k]); assert s[k] == p[k];
    case Lowercase => var k :| 0 <= k < |p| && IsAsciiLower(p[k]); assert s[k] == p[k];
    case Number => var k :| 0 <= k < |p| && IsAsciiDigit(p[k]); assert s[k] == p[k];
    case Special => var k :| 0 <= k < |p| && IsSpecial(p[k]); assert s[k] == p[k];
  }

  lemma {:induction false} MetCountMonotone(minLength: nat, p: string, q: string, cs: seq<Criterion>)
    ensures MetCount(minLength, p, cs) <= MetCount(minLength, p + q, cs)
  {
    if cs != [] {
      if Meets(minLength, p, cs[0]) {
        ExtendingKeepsCriteria(minLength, p, q, cs[0]);
      }
      MetCountMonotone(minLength, p, q, cs[1..]);
    }
  }

  /** Extending a password never lowers its score. */
  lemma ExtendingNeverLowersScore(minLength: nat, p: string, q: string)
    ensures Score(minLength, p) <= Score(minLength, p + q)
  {
    MetCountMonotone(minLength, p, q, Criteria);
  }

  // ------------------------------------------------------- breach check

  /** What `requests.get` gave back: a response, or a `RequestException`. */
  datatype HttpReply = Response(statusCode: int, text: string) | RequestException

  /** `check_breach`'s outcome: the `(breached, count)` pair, or a `ValueError` escaping. */
  datatype BreachResult = Breach(breached: bool, count: int) | ValueErrorRaised

  /** `hashlib.sha1(password.encode('utf-8')).hexdigest().upper()` over a given SHA-1. */
  function Sha1Hex(sha1: seq<byte> -> seq<byte>, password: string): string
  {
    DigestHex(sha1(Utf8Encode(password)))
  }

  /** `.hexdigest().upper()` */
  function DigestHex(digest: seq<byte>): string
  {
    AsciiUpper(HexEncode(digest))
  }

  /** `h[:5]` and `h[5:]` with Python's slice clamping. */
  function HashPrefix(h: string): string { h[..if |h| < 5 then |h| else 5] }
  function HashSuffix(h: string): string { h[if |h| < 5 then |h| else 5..] }

  /** The prefix and suffix of a 20-byte SHA-1 digest: 5 and 35 upper-case hex characters that make up the digest. */
  lemma DigestSplit(digest: seq<byte>)
    requires |digest| == 20
    ensures |DigestHex(digest)| == 40
    ensures |HashPrefix(DigestHex(digest))| == 5 && |HashSuffix(DigestHex(digest))| == 35
    ensures HashPrefix(DigestHex(digest)) + HashSuffix(DigestHex(digest)) == DigestHex(digest)
    ensures forall k :: 0 <= k < 40 ==> IsHexDigit(DigestHex(digest)[k]) && !IsAsciiLower(DigestHex(digest)[k])
  {
    var hex := HexEncode(digest);
    var h := DigestHex(digest);
    forall k | 0 <= k < |h| ensures IsHexDigit(h[k]) && !IsAsciiLower(h[k]) {
      assert IsHexDigit(hex[k]);
    }
  }

  /** The scan of the reply's lines: the first line whose field before ':' is the suffix decides. */
  function MatchLines(lines: seq<string>, suffix: string): (r: BreachResult)
    ensures (r.Breach? && !r.breached) ==> r.count == 0
    ensures (r.Breach? && r.breached) ==> lines != []
  {
    if lines == [] then Breach(false, 0)
    else
      var fields := Split(lines[0], ':');
      if |fields| != 2 then ValueErrorRaised
      else if fields[0] == suffix then
        match ParseInt(fields[1])
        case Some(n) => Breach(true, n)
        case None => ValueErrorRaised
      else MatchLines(lines[1..], suffix)
  }

  /** The verdict for a reply: only a 200 response is scanned, anything else is "not breached". */
  function ReplyVerdict(reply: HttpReply, suffix: string): (r: BreachResult)
    ensures (r.Breach? && !r.breached) ==> r.count == 0
    ensures (r.Breach? && r.breached) || r.ValueErrorRaised? ==> reply.Response? && reply.statusCode == 200
  {
    match reply
    case RequestException => Breach(false, 0)
    case Response(status, text) => if status == 200 then MatchLines(SplitLines(text), suffix) else Breach(false, 0)
  }

  /** The whole check, with the network as the function `fetch` from URL to reply. */
  function BreachCheck(sha1: seq<byte> -> seq<byte>, apiUrl: string, password: string, fetch: string -> HttpReply): (r: BreachResult)
    ensures (r.Breach? && !r.breached) ==> r.count == 0
    ensures (r.Breach? && r.breached) || r.ValueErrorRaised? ==>
              var url := apiUrl + HashPrefix(Sha1Hex(sha1, password));
              fetch(url).Response? && fetch(url).statusCode == 200
  {
    var h := Sha1Hex(sha1, password);
    ReplyVerdict(fetch(apiUrl + HashPrefix(h)), HashSuffix(h))
  }

  /** A line that unpacks into two fields and does not carry the suffix. */
  predicate PassedOver(line: string, suffix: string)
  {
    |Split(line, ':')| == 2 && Split(line, ':')[0] != suffix
  }

  /** A line that unpacks into `suffix` and a count that `int()` reads as `count`. */
  predicate LineCarries(line: string, suffix: string, count: int)
  {
    var fields := Split(line, ':');
    |fields| == 2 && fields[0] == suffix && ParseInt(fields[1]) == Some(count)
  }

  /** Line `k` carries the suffix and every line before it is a well-formed non-match. */
  predicate FoundAt(lines: seq<string>, suffix: string, k: int, count: int)
  {
    0 <= k < |lines| && LineCarries(lines[k], suffix, count)
    && forall j :: 0 <= j < k ==> PassedOver(lines[j], suffix)
  }

  lemma FoundAtShift(lines: seq<string>, suffix: string, k: nat, count: int)
    requires lines != []
    ensures FoundAt(lines, suffix, k + 1, count) <==> PassedOver(lines[0], suffix) && FoundAt(lines[1..], suffix, k, count)
  {
    if PassedOver(lines[0], suffix) && FoundAt(lines[1..], suffix, k, count) {
      forall j | 0 <= j < k + 1 ensures PassedOver(lines[j], suffix) {
        if j > 0 { assert lines[j] == lines[1..][j - 1]; }
      }
    }
    if FoundAt(lines, suffix, k + 1, count) {
      assert PassedOver(lines[0], suffix);
      forall j | 0 <= j < k ensures PassedOver(lines[1..][j], suffix) {
        assert lines[1..][j] == lines[j + 1];
      }
      assert lines[1..][k] == lines[k + 1];
    }
  }

  /** The scan reports a breach with `count` exactly when some line is `suffix:count` and every line before it is a well-formed non-match. */
  lemma {:induction false} MatchLinesFound(lines: seq<string>, suffix: string, count: int)
    ensures MatchLines(lines, suffix) == Breach(true, count) <==> exists k :: FoundAt(lines, suffix, k, count)
  {
    if lines != [] {
      MatchLinesFound(lines[1..], suffix, count);
      if exists k :: FoundAt(lines, suffix, k, count) {
        var k :| FoundAt(lines, suffix, k, count);
        if k > 0 {
          FoundAtShift(lines, suffix, k - 1, count);
        }
      }
      if MatchLines(lines, suffix) == Breach(true, count) {
        if LineCarries(lines[0], suffix, count) {
          assert FoundAt(lines, suffix, 0, count);
        } else {
          var k :| FoundAt(lines[1..], suffix, k, count);
          FoundAtShift(lines, suffix, k, count);
        }
      }
    }
  }

  /** The check says "not breached" exactly when the request failed, the status was not 200, or every line is a well-formed non-match. */
  lemma {:induction false} NotBreachedCases(reply: HttpReply, suffix: string)
    ensures ReplyVerdict(reply, suffix) == Breach(false, 0) <==>
      reply.RequestException? || reply.statusCode != 200
      || forall k :: 0 <= k < |SplitLines(reply.text)| ==> PassedOver(SplitLines(reply.text)[k], suffix)
  {
    match reply
    case RequestException =>
    case Response(status, text) =>
      if status == 200 {
        assert ReplyVerdict(reply, suffix) == MatchLines(SplitLines(text), suffix);
        MatchLinesNotFound(SplitLines(text), suffix);
      }
  }

  lemma {:induction false} MatchLinesNotFound(lines: seq<string>, suffix: string)
    ensures MatchLines(lines, suffix) == Breach(false, 0) <==> forall k :: 0 <= k < |lines| ==> PassedOver(lines[k], suffix)
  {
    if lines != [] {
      MatchLinesNotFound(lines[1..], suffix);
      if forall k :: 0 <= k < |lines| ==> PassedOver(lines[k], suffix) {
        assert forall k :: 0 <= k < |lines[1..]| ==> PassedOver(lines[1..][k], suffix) by {
          forall k | 0 <= k < |lines[1..]| ensures PassedOver(lines[1..][k], suffix) {
            assert lines[1..][k] == lines[k + 1];
          }
        }
      }
      if PassedOver(lines[0], suffix) && forall k :: 0 <= k < |lines[1..]| ==> PassedOver(lines[1..][k], suffix) {
        forall k | 0 <= k < |lines| ensures PassedOver(lines[k], suffix) {
          if k > 0 { assert lines[k] == lines[1..][k - 1]; }
        }
      }
    }
  }

  /** Only the five-character prefix reaches the network: replies to any other URL cannot change the verdict. */
  lemma OnlyPrefixIsSent(sha1: seq<byte> -> seq<byte>, apiUrl: string, password: string, f: string -> HttpReply, g: string -> HttpReply)
    requires f(apiUrl + HashPrefix(Sha1Hex(sha1, password))) == g(apiUrl + HashPrefix(Sha1Hex(sha1, password)))
    ensures BreachCheck(sha1, apiUrl, password, f) == BreachCheck(sha1, apiUrl, password, g)
  {
  }

  /** One `SUFFIX:COUNT` line of a range-API reply. */
  function EntryLine(e: (string, nat)): string
  {
    e.0 + ":" + NatToString(e.1)
  }

  function EntryLines(corpus: seq<(string, nat)>): (lines: seq<string>)
    ensures |lines| == |corpus|
    ensures forall k :: 0 <= k < |corpus| ==> lines[k] == EntryLine(corpus[k])
  {
    if corpus == [] then [] else [EntryLine(corpus[0])] + EntryLines(corpus[1..])
  }

  /** Suffixes as the API returns them: upper-case hex, so free of ':' and line breaks. */
  predicate HexSuffix(s: string)
  {
    forall k :: 0 <= k < |s| ==> IsHexDigit(s[k])
  }

  /** An entry line of a hex suffix holds no line break and splits into the suffix and the count. */
  lemma EntryLineShape(e: (string, nat))
    requires HexSuffix(e.0)
    ensures forall j :: 0 <= j < |EntryLine(e)| ==> !IsLineBreak(EntryLine(e)[j])
    ensures Split(EntryLine(e), ':') == [e.0, NatToString(e.1)]
  {
    var digits := NatToString(e.1);
    var line := EntryLine(e);
    assert line == e.0 + [':'] + digits;
    forall j | 0 <= j < |line| ensures !IsLineBreak(line[j]) {
      if j < |e.0| {
        assert line[j] == e.0[j];
      } else if j > |e.0| {
        assert line[j] == digits[j - |e.0| - 1];
      }
    }
    forall j | 0 <= j < |e.0| ensures e.0[j] != ':' {
      assert IsHexDigit(e.0[j]);
    }
    forall j | 0 <= j < |digits| ensures digits[j] != ':' {
      assert IsAsciiDigit(digits[j]);
    }
    SplitTwoFields(e.0, digits, ':');
  }

  /**
   * Against a range reply listing `SUFFIX:COUNT` lines, a password whose suffix is
   * listed is reported breached with the listed count.
   */
  lemma ListedSuffixIsBreached(corpus: seq<(string, nat)>, i: nat, suffix: string)
    requires forall k :: 0 <= k < |corpus| ==> HexSuffix(corpus[k].0)
    requires i < |corpus| && corpus[i].0 == suffix
    requires forall k :: 0 <= k < i ==> corpus[k].0 != suffix
    ensures ReplyVerdict(Response(200, NewlineTerminated(EntryLines(corpus))), suffix) == Breach(true, corpus[i].1)
  {
    var lines := EntryLines(corpus);
    EntryLinesShape(corpus);
    SplitLinesOfTerminated(lines);
    ParseNatToString(corpus[i].1);
    assert LineCarries(lines[i], suffix, corpus[i].1);
    forall j | 0 <= j < i ensures PassedOver(lines[j], suffix) {
      assert Split(lines[j], ':')[0] == corpus[j].0;
    }
    assert FoundAt(lines, suffix, i, corpus[i].1);
    MatchLinesFound(lines, suffix, corpus[i].1);
  }

  lemma EntryLinesShape(corpus: seq<(string, nat)>)
    requires forall k :: 0 <= k < |corpus| ==> HexSuffix(corpus[k].0)
    ensures forall k, j :: 0 <= k < |corpus| && 0 <= j < |EntryLines(corpus)[k]| ==> !IsLineBreak(EntryLines(corpus)[k][j])
    ensures forall k :: 0 <= k < |corpus| ==> Split(EntryLines(corpus)[k], ':') == [corpus[k].0, NatToString(corpus[k].1)]
  {
    forall k | 0 <= k < |corpus|
      ensures forall j :: 0 <= j < |EntryLine(corpus[k])| ==> !IsLineBreak(EntryLine(corpus[k])[j])
      ensures Split(EntryLine(corpus[k]), ':') == [corpus[k].0, NatToString(corpus[k].1)]
    {
      EntryLineShape(corpus[k]);
    }
  }

  // ------------------------------------------------------- generation

  /** A draw whose first four characters are one of each class, all from the alphabet. */
  predicate WellDrawn(drawn: string)
  {
    |drawn| >= 4
    && IsAsciiLower(drawn[0]) && IsAsciiUpper(drawn[1]) && IsAsciiDigit(drawn[2]) && IsSpecial(drawn[3])
    && forall k :: 0 <= k < |drawn| ==> InSomeClass(drawn[k])
  }

  /** The four mandatory draws, one from each class, start a well-formed draw. */
  lemma FirstFourWellDrawn(rng: nat -> nat, drawn: string)
    requires drawn == [LowercaseLetters[rng(0) % |LowercaseLetters|], UppercaseLetters[rng(1) % |UppercaseLetters|],
      DigitChars[rng(2) % |DigitChars|], SpecialChars[rng(3) % |SpecialChars|]]
    ensures WellDrawn(drawn)
  {
    var lower, upper, digit, special := drawn[0], drawn[1], drawn[2], drawn[3];
    assert IsAsciiLower(lower) && IsAsciiUpper(upper) && IsAsciiDigit(digit);
    SpecialCharsAreSpecial(special);
    forall k | 0 <= k < 4 ensures InSomeClass(drawn[k]) {
      if k == 0 {
        assert drawn[k] == lower;
      } else if k == 1 {
        assert drawn[k] == upper;
      } else if k == 2 {
        assert drawn[k] == digit;
      } else {
        assert drawn[k] == special;
      }
    }
  }

  lemma WellDrawnExtend(drawn: string, c: char)
    requires WellDrawn(drawn) && InSomeClass(c)
    ensures WellDrawn(drawn + [c])
  {
    var d := drawn + [c];
    assert d[0] == drawn[0] && d[1] == drawn[1] && d[2] == drawn[2] && d[3] == drawn[3];
  }

  /** Any rearrangement of a well-formed draw of at least the minimum length meets all five criteria. */
  lemma ShuffledDrawIsStrong(minLength: nat, drawn: string, password: string)
    requires WellDrawn(drawn) && |drawn| >= minLength
    requires multiset(password) == multiset(drawn)
    ensures |password| == |drawn|
    ensures HasLower(password) && HasUpper(password) && HasDigit(password) && HasSpecial(password)
    ensures forall k :: 0 <= k < |password| ==> password[k] in AllChars
    ensures Score(minLength, password) == 5 && Feedback(minLength, password) == []
  {
    assert |multiset(password)| == |multiset(drawn)|;
    forall i | 0 <= i < 4 ensures drawn[i] in password {
      assert drawn[i] in multiset(drawn);
    }
    var lo :| 0 <= lo < |password| && password[lo] == drawn[0];
    var up :| 0 <= up < |password| && password[up] == drawn[1];
    var di :| 0 <= di < |password| && password[di] == drawn[2];
    var sp :| 0 <= sp < |password| && password[sp] == drawn[3];
    forall k | 0 <= k < |password| ensures password[k] in AllChars {
      assert password[k] in multiset(password);
      AllCharsIsUnionOfClasses(password[k]);
    }
    FullScoreIffAllMet(minLength, password);
    forall c ensures Meets(minLength, password, c) {
    }
  }

  // ------------------------------------------------------- the analyzer

  /** `PasswordAnalyzer`: its minimum length, the range API's URL and the SHA-1 it hashes with. */
  class PasswordAnalyzer {
    const minLength: nat
    const apiUrl: string
    const sha1: seq<byte> -> seq<byte>

    constructor (minLength: nat, apiUrl: string, sha1: seq<byte> -> seq<byte>)
      ensures this.minLength == minLength && this.apiUrl == apiUrl && this.sha1 == sha1
    {
      this.minLength := minLength;
      this.apiUrl := apiUrl;
      this.sha1 := sha1;
    }

    /** `check_strength`: one point per criterion met, one message per criterion missed, in the fixed order. */
    method CheckStrength(password: string) returns (score: nat, feedback: seq<string>)
      ensures score == Score(minLength, password) && feedback == Feedback(minLength, password)
    {
      score := 0;
      feedback := [];
      if |password| >= minLength {
        score := score + 1;
      } else {
        feedback := feedback + [Message(minLength, MinLength)];
      }
      ghost var reported := Report(minLength, |password| >= minLength, MinLength);
      assert feedback == reported;
      if HasUpper(password) {
        score := score + 1;
      } else {
        feedback := feedback + [Message(minLength, Uppercase)];
      }
      reported := reported + Report(minLength, HasUpper(password), Uppercase);
      assert feedback == reported;
      if HasLower(password) {
        score := score + 1;
      } else {
        feedback := feedback + [Message(minLength, Lowercase)];
      }
      reported := reported + Report(minLength, HasLower(password), Lowercase);
      assert feedback == reported;
      if HasDigit(password) {
        score := score + 1;
      } else {
        feedback := feedback + [Message(minLength, Number)];
      }
      reported := reported + Report(minLength, HasDigit(password), Number);
      assert feedback == reported;
      if HasSpecial(password) {
        score := score + 1;
      } else {
        feedback := feedback + [Message(minLength, Special)];
      }
      reported := reported + Report(minLength, HasSpecial(password), Special);
      assert feedback == reported;
      ScoreUnfold(minLength, password);
      FeedbackUnfold(minLength, password);
    }

    /**
     * `generate_password`: one lower-case letter, one upper-case letter, one digit and
     * one special character, padded from all four classes to the requested length
     * (at least the minimum length) and shuffled. `rng(k)` is the k-th random draw.
     */
    method GeneratePassword(length: int, rng: nat -> nat) returns (password: string)
      ensures |password| == Max(Max(length, minLength), 4)
      ensures minLength >= 4 ==> |password| == Max(length, minLength)
      ensures HasLower(password) && HasUpper(password) && HasDigit(password) && HasSpecial(password)
      ensures forall k :: 0 <= k < |password| ==> password[k] in AllChars
      ensures Score(minLength, password) == 5 && Feedback(minLength, password) == []
    {
      var n := length;
      if n < minLength {
        n := minLength;
      }
      var drawn := Draw(n, rng);
      var chars := new char[|drawn|](k requires 0 <= k < |drawn| => drawn[k]);
      assert chars[..] == drawn;
      Shuffle(chars, rng, |drawn|);
      password := chars[..];
      ShuffledDrawIsStrong(minLength, drawn, password);
    }

    /** The draws before the shuffle: one of each class, then characters of the alphabet up to `n` in all. */
    static method Draw(n: int, rng: nat -> nat) returns (drawn: string)
      ensures WellDrawn(drawn) && |drawn| == Max(n, 4)
    {
      var lower := LowercaseLetters[rng(0) % |LowercaseLetters|];
      var upper := UppercaseLetters[rng(1) % |UppercaseLetters|];
      var digit := DigitChars[rng(2) % |DigitChars|];
      var special := SpecialChars[rng(3) % |SpecialChars|];
      drawn := [lower, upper, digit, special];
      FirstFourWellDrawn(rng, drawn);
      while |drawn| < n
        invariant WellDrawn(drawn) && |drawn| <= Max(n, 4)
      {
        var c := AllChars[rng(|drawn|) % |AllChars|];
        AllCharsIsUnionOfClasses(c);
        WellDrawnExtend(drawn, c);
        drawn := drawn + [c];
      }
    }

    /** `random.shuffle`: Fisher–Yates from the last position down, drawing `rng(first)`, `rng(first + 1)`, ... */
    static method Shuffle(a: array<char>, rng: nat -> nat, first: nat)
      modifies a
      ensures multiset(a[..]) == old(multiset(a[..]))
    {
      var i := a.Length - 1;
      var draw := first;
      while i >= 1
        invariant i < a.Length
        invariant multiset(a[..]) == old(multiset(a[..]))
      {
        var j := rng(draw) % (i + 1);
        a[i], a[j] := a[j], a[i];
        i := i - 1;
        draw := draw + 1;
      }
    }

    /**
     * `check_breach`: hash, send the five-character prefix, scan the reply's lines
     * for the 35-character suffix. `fetch` answers `requests.get`.
     */
    method CheckBreach(password: string, fetch: string -> HttpReply) returns (r: BreachResult)
      ensures r == BreachCheck(sha1, apiUrl, password, fetch)
    {
      var sha1Hash := Sha1Hex(sha1, password);
      var hashPrefix := HashPrefix(sha1Hash);
      var hashSuffix := HashSuffix(sha1Hash);
      var response := fetch(apiUrl + hashPrefix);
      if response.RequestException? {
        return Breach(false, 0);
      }
      if response.statusCode == 200 {
        var lines := SplitLines(response.text);
        var i := 0;
        while i < |lines|
          invariant 0 <= i <= |lines|
          invariant MatchLines(lines[i..], hashSuffix) == MatchLines(lines, hashSuffix)
        {
          var fields := Split(lines[i], ':');
          if |fields| != 2 {
            return ValueErrorRaised;
          }
          if fields[0] == hashSuffix {
            var count := ParseInt(fields[1]);
            if count.None? {
              return ValueErrorRaised;
            }
            return Breach(true, count.value);
          }
          assert lines[i..][1..] == lines[i + 1..];
          i := i + 1;
        }
      }
      return Breach(false, 0);
    }
  }
}
