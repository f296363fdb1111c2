/** Reading tokens from a text, and texts as tokens with white space between them. */
module JsonTokens {
  import opened JsonSyntax
  import opened JsonNumbers
  import opened JsonGrammar

  /** Reading tokens from `s` gives `ts` and leaves `rest`. */
  predicate Reads(s: string, ts: seq<Token>, rest: string)
    decreases |ts|
  {
    if ts == [] then s == rest
    else NextToken(s).token == ts[0] && Reads(NextToken(s).rest, ts[1..], rest)
  }

  /** What is left after reading tokens. */
  function Left(s: string, n: nat): string
    decreases n
  {
    if n == 0 then s else Left(NextToken(s).rest, n - 1)
  }

  lemma {:induction false} ReadsSplit(s: string, a: seq<Token>, b: seq<Token>, rest: string)
    requires Reads(s, a + b, rest)
    ensures Reads(s, a, Left(s, |a|)) && Reads(Left(s, |a|), b, rest)
    decreases |a|
  {
    if a == [] {
      assert a + b == b;
    } else {
      assert (a + b)[1..] == a[1..] + b;
      ReadsSplit(NextToken(s).rest, a[1..], b, rest);
    }
  }

  lemma {:induction false} ReadsJoin(s: string, a: seq<Token>, m: string, b: seq<Token>, rest: string)
    requires Reads(s, a, m) && Reads(m, b, rest)
    ensures Reads(s, a + b, rest)
    decreases |a|
  {
    if a == [] {
      assert a + b == b;
    } else {
      assert (a + b)[1..] == a[1..] + b;
      ReadsJoin(NextToken(s).rest, a[1..], m, b, rest);
    }
  }

  lemma {:induction false} ReadsOne(s: string, t: Token, rest: string)
    ensures Reads(s, [t], rest) <==> NextToken(s) == Lexed(t, rest)
  {}

  lemma {:induction false} ReadsFirst(s: string, t: Token, b: seq<Token>, rest: string)
    ensures Reads(s, [t] + b, rest) <==> NextToken(s).token == t && Reads(NextToken(s).rest, b, rest)
  {}

  // ------------------------------------------------------- tokens by their text

  predicate AllSpaces(w: string) { forall i :: 0 <= i < |w| ==> IsSpace(w[i]) }

  lemma {:induction false} SpacesSkipped(w: string, s: string)
    requires AllSpaces(w)
    ensures SkipSpaces(w + s) == SkipSpaces(s)
  {
    if w == "" {
      assert w + s == s;
    } else {
      assert (w + s)[1..] == w[1..] + s;
      SpacesSkipped(w[1..], s);
    }
  }

  /** White space before a token does not matter. */
  lemma {:induction false} ReadsAfterSpaces(w: string, s: string, ts: seq<Token>, rest: string)
    requires AllSpaces(w) && ts != [] && Reads(s, ts, rest)
    ensures Reads(w + s, ts, rest)
  {
    SpacesSkipped(w, s);
  }

  predicate IsPunctuation(c: char) {
    c == '[' || c == ']' || c == '{' || c == '}' || c == ',' || c == ':'
  }

  lemma {:induction false} ReadPunctuation(c: char, k: string)
    requires IsPunctuation(c)
    ensures NextToken([c] + k) == Lexed(Token(FirstKind(c), [c]), k)
  {}

  lemma {:induction false} ReadQuote(ps: seq<Piece>, k: string)
    requires AllValid(ps)
    ensures NextToken(Quote(ps) + k) == Lexed(Token(String, Quote(ps)), k)
  {
    var t := Quote(ps) + k;
    assert t[1..] == SpellAll(ps) + ['"'] + k;
    StringEnds(ps, k);
    assert t[..|t| - |k|] == Quote(ps);
  }

  /** What may follow a number. */
  predicate Delimits(k: string) { k == "" || !IsNumberChar(k[0]) }

  lemma {:induction false} NumberEnds(t: string, k: string)
    requires (forall i :: 0 <= i < |t| ==> IsNumberChar(t[i])) && Delimits(k)
    ensures NumberRest(t + k) == k
  {
    if t == "" {
      assert t + k == k;
    } else {
      assert (t + k)[1..] == t[1..] + k;
      NumberEnds(t[1..], k);
    }
  }

  lemma {:induction false} ReadNumber(t: string, k: string)
    requires IsNumberText(t) && Delimits(k)
    ensures NextToken(t + k) == Lexed(Token(Number, t), k)
  {
    var s := t + k;
    assert s[1..] == t[1..] + k;
    NumberEnds(t[1..], k);
    assert s[..|s| - |k|] == t;
    assert SkipSpaces(s) == s && FirstKind(s[0]) == Number;
  }

  lemma {:induction false} ReadWord(first: char, more: string, kind: Kind, k: string)
    requires (first == 'n' && more == "ull" && kind == NullWord) || (first == 't' && more == "rue" && kind == True) ||
             (first == 'f' && more == "alse" && kind == False)
    ensures NextToken([first] + more + k) == Lexed(Token(kind, [first] + more), k)
  {
    var t := [first] + more + k;
    assert t[1..] == more + k;
    assert (more + k)[..|more|] == more && (more + k)[|more|..] == k;
    assert t[..|t| - |k|] == [first] + more;
  }

  // -------------------------------------------------- nothing is lost but white space

  predicate EndsWith(s: string, r: string) { |r| <= |s| && s[|s| - |r|..] == r }

  lemma {:induction false} EndsTrans(s: string, t: string, r: string)
    requires EndsWith(s, t) && EndsWith(t, r)
    ensures EndsWith(s, r)
  {}

  lemma {:induction false} EndsNext(s: string, n: nat, r: string)
    requires n <= |s| && EndsWith(s[n..], r)
    ensures EndsWith(s, r)
  {
    EndsTrans(s, s[n..], r);
  }

  lemma {:induction false} NumberSuffix(s: string)
    ensures EndsWith(s, NumberRest(s))
  {
    if s != "" && IsNumberChar(s[0]) {
      NumberSuffix(s[1..]);
      EndsNext(s, 1, NumberRest(s[1..]));
    }
  }

  lemma {:induction false} StringSuffix(s: string)
    ensures EndsWith(s, StringRest(s).rest)
    decreases |s|
  {
    if s == "" || (s[0] == '\\' && |s| == 1) || s[0] == '"' {
    } else {
      var n := if s[0] == '\\' then 2 else 1;
      StringSuffix(s[n..]);
      EndsNext(s, n, StringRest(s[n..]).rest);
    }
  }

  lemma {:induction false} BlockSuffix(s: string)
    ensures EndsWith(s, BlockCommentRest(s).rest)
  {
    if s != "" && !(s[0] == '*' && |s| > 1 && s[1] == '/') {
      BlockSuffix(s[1..]);
      EndsNext(s, 1, BlockCommentRest(s[1..]).rest);
    }
  }

  lemma {:induction false} LineSuffix(s: string)
    ensures EndsWith(s, LineCommentRest(s))
  {
    if s != "" && s[0] != '\r' && s[0] != '\n' {
      LineSuffix(s[1..]);
      EndsNext(s, 1, LineCommentRest(s[1..]));
    }
  }

  lemma {:induction false} CommentSuffix(s: string)
    ensures EndsWith(s, CommentRest(s).rest)
  {
    if s != "" {
      BlockSuffix(s[1..]);
      LineSuffix(s[1..]);
      EndsNext(s, 1, CommentRest(s).rest);
    }
  }

  lemma {:induction false} TokenSuffix(k: Kind, s: string)
    ensures EndsWith(s, TokenRest(k, s).rest)
  {
    match k
    case String => StringSuffix(s);
    case Comment => CommentSuffix(s);
    case Number => NumberSuffix(s);
    case _ =>
  }

  lemma {:induction false} SpacesCut(s: string) returns (w: string)
    ensures AllSpaces(w) && s == w + SkipSpaces(s)
  {
    if s != "" && IsSpace(s[0]) {
      w := SpacesCut(s[1..]);
      assert s == [s[0]] + s[1..];
      w := [s[0]] + w;
    } else {
      w := "";
    }
  }

  lemma {:induction false} SplitAt(t: string, r: string)
    requires EndsWith(t, r)
    ensures t == t[..|t| - |r|] + r
  {}

  lemma {:induction false} TokenAtCut(t: string)
    ensures t == TokenAt(t).token.text + TokenAt(t).rest
  {
    if t != "" {
      var r := TokenRest(FirstKind(t[0]), t[1..]).rest;
      TokenSuffix(FirstKind(t[0]), t[1..]);
      EndsNext(t, 1, r);
      SplitAt(t, r);
    }
  }

  /** Reading a token takes its text off the front, after white space. */
  lemma {:induction false} TokenCut(s: string) returns (w: string)
    ensures AllSpaces(w) && s == w + (NextToken(s).token.text + NextToken(s).rest)
  {
    w := SpacesCut(s);
    TokenAtCut(SkipSpaces(s));
  }

  // --------------------------------------------------------------- comments

  /** The first end of a block comment in `s` is just before `n`. */
  predicate BlockEndsAt(s: string, n: nat) {
    && 2 <= n <= |s| && s[n - 2] == '*' && s[n - 1] == '/'
    && forall i :: 0 <= i < n - 2 ==> !(s[i] == '*' && s[i + 1] == '/')
  }

  /** What follows the two characters that open a block comment: the comment ends at the first star and slash. */
  lemma {:induction false} BlockCommentIff(s: string, n: nat)
    requires n <= |s|
    ensures BlockCommentRest(s) == Scan(true, s[n..]) <==> BlockEndsAt(s, n)
    decreases |s|
  {
    if s == "" {
    } else if s[0] == '*' && |s| > 1 && s[1] == '/' {
      if n != 2 {
        assert |s[n..]| != |s[2..]|;
      }
    } else if n > 0 {
      BlockCommentIff(s[1..], n - 1);
      assert s[1..][n - 1..] == s[n..];
      BlockEndShifts(s, n);
    } else {
      assert |BlockCommentRest(s[1..]).rest| < |s|;
    }
  }

  lemma {:induction false} BlockEndShifts(s: string, n: nat)
    requires 0 < n <= |s| && !(s[0] == '*' && |s| > 1 && s[1] == '/')
    ensures BlockEndsAt(s, n) <==> BlockEndsAt(s[1..], n - 1)
  {
    var t := s[1..];
    assert forall i :: 0 <= i < |t| ==> t[i] == s[i + 1];
    if BlockEndsAt(t, n - 1) {
      forall i | 0 <= i < n - 2 ensures !(s[i] == '*' && s[i + 1] == '/') {
        if i > 0 {
          assert !(t[i - 1] == '*' && t[i] == '/');
        }
      }
    }
  }

  predicate IsLineEnd(c: char) { c == '\r' || c == '\n' }

  /** A line comment ends after the first line end, or with the text. */
  predicate LineEndsAt(s: string, n: nat) {
    && n <= |s| && (forall i :: 0 <= i < n - 1 ==> !IsLineEnd(s[i]))
    && (n == |s| || (n > 0 && IsLineEnd(s[n - 1])))
  }

  lemma {:induction false} LineCommentIff(s: string, n: nat)
    requires n <= |s|
    ensures LineCommentRest(s) == s[n..] <==> LineEndsAt(s, n)
    decreases |s|
  {
    if s == "" {
    } else if IsLineEnd(s[0]) {
      if n != 1 {
        assert |s[n..]| != |s[1..]|;
      }
    } else if n > 0 {
      LineCommentIff(s[1..], n - 1);
      assert s[1..][n - 1..] == s[n..];
      LineEndShifts(s, n);
    } else {
      assert |LineCommentRest(s[1..])| < |s|;
    }
  }

  lemma {:induction false} LineEndShifts(s: string, n: nat)
    requires 0 < n <= |s| && !IsLineEnd(s[0])
    ensures LineEndsAt(s, n) <==> LineEndsAt(s[1..], n - 1)
  {
    var t := s[1..];
    assert forall i :: 0 <= i < |t| ==> t[i] == s[i + 1];
    if LineEndsAt(t, n - 1) {
      forall i | 0 <= i < n - 1 ensures !IsLineEnd(s[i]) {
        if i > 0 {
          assert !IsLineEnd(t[i - 1]);
        }
      }
    }
  }

  // ------------------------------------------------------------- texts of tokens

  /** Tokens one after the other, each after its white space. */
  function Laid(ts: seq<Token>, gaps: seq<string>): string
    requires |gaps| == |ts|
  {
    if ts == [] then "" else gaps[0] + (ts[0].text + Laid(ts[1..], gaps[1..]))
  }

  predicate AllGaps(gaps: seq<string>) { forall i :: 0 <= i < |gaps| ==> AllSpaces(gaps[i]) }

  /** Whatever is read is those tokens with white space between them. */
  lemma {:induction false} ReadsAreLaid(s: string, ts: seq<Token>, rest: string) returns (gaps: seq<string>)
    requires Reads(s, ts, rest)
    ensures |gaps| == |ts| && AllGaps(gaps) && s == Laid(ts, gaps) + rest
    decreases |ts|
  {
    if ts == [] {
      gaps := [];
    } else {
      var w := TokenCut(s);
      var more := ReadsAreLaid(NextToken(s).rest, ts[1..], rest);
      gaps := [w] + more;
      assert gaps[1..] == more;
      Associates(w, ts[0].text, Laid(ts[1..], more), rest);
    }
  }

  lemma {:induction false} Appended<T>(done: seq<T>, v: T, more: seq<T>)
    ensures done + ([v] + more) == done + [v] + more
  {}

  lemma {:induction false} Associates(a: string, b: string, c: string, d: string)
    ensures a + (b + (c + d)) == a + (b + c) + d
  {}

  /** A token with the text that its kind calls for. */
  ghost predicate Proper(t: Token) {
    match t.kind
    case Number => IsNumberText(t.text)
    case String => exists ps :: AllValid(ps) && t.text == Quote(ps)
    case True => t.text == "true"
    case False => t.text == "false"
    case NullWord => t.text == "null"
    case _ => |t.text| == 1 && IsPunctuation(t.text[0]) && t.kind == FirstKind(t.text[0])
  }

  /** Proper tokens, with something after every number that ends it. */
  ghost predicate Separate(ts: seq<Token>) {
    && (forall i :: 0 <= i < |ts| ==> Proper(ts[i]))
    && (forall i :: 0 < i < |ts| && ts[i - 1].kind == Number ==> Delimits(ts[i].text))
  }

  /** A proper token is read back from its text, before anything that may follow it. */
  lemma {:induction false} ProperIsRead(t: Token, k: string)
    requires Proper(t) && (t.kind == Number ==> Delimits(k))
    ensures NextToken(t.text + k) == Lexed(t, k)
  {
    match t.kind
    case Number => ReadNumber(t.text, k);
    case String =>
      var ps :| AllValid(ps) && t.text == Quote(ps);
      ReadQuote(ps, k);
    case True =>
      assert "true" == ['t'] + "rue";
      ReadWord('t', "rue", True, k);
    case False =>
      assert "false" == ['f'] + "alse";
      ReadWord('f', "alse", False, k);
    case NullWord =>
      assert "null" == ['n'] + "ull";
      ReadWord('n', "ull", NullWord, k);
    case _ =>
      assert t.text == [t.text[0]];
      ReadPunctuation(t.text[0], k);
  }

  lemma {:induction false} SpacesDelimit(w: string, k: string)
    requires AllSpaces(w) && Delimits(k)
    ensures Delimits(w + k)
  {
    if w != "" {
      assert IsSpace(w[0]) && (w + k)[0] == w[0];
    }
  }

  /** What follows the first token may follow a number when the second token or the end may. */
  lemma {:induction false} LaidDelimits(ts: seq<Token>, gaps: seq<string>, k: string)
    requires |gaps| == |ts| && AllGaps(gaps)
    requires if ts == [] then Delimits(k) else ts[0].text != "" && Delimits(ts[0].text)
    ensures Delimits(Laid(ts, gaps) + k)
  {
    if ts == [] {
      assert "" + k == k;
    } else {
      var after := ts[0].text + Laid(ts[1..], gaps[1..]);
      assert (after + k)[0] == ts[0].text[0];
      SpacesDelimit(gaps[0], after + k);
      assert gaps[0] + after + k == gaps[0] + (after + k);
    }
  }

  /** Tokens that keep apart are read from their text, whatever the white space between them. */
  lemma {:induction false} LaidIsRead(ts: seq<Token>, gaps: seq<string>, k: string)
    requires Separate(ts) && |gaps| == |ts| && AllGaps(gaps)
    requires ts != [] && ts[|ts| - 1].kind == Number ==> Delimits(k)
    ensures Reads(Laid(ts, gaps) + k, ts, k)
    decreases |ts|
  {
    if ts == [] {
      assert "" + k == k;
    } else {
      var more, after := ts[1..], Laid(ts[1..], gaps[1..]);
      assert Proper(ts[0]) && Separate(more);
      LaidIsRead(more, gaps[1..], k);
      if ts[0].kind == Number {
        if more != [] { assert Proper(more[0]) && ts[1].text != ""; }
        LaidDelimits(more, gaps[1..], k);
      }
      ProperIsRead(ts[0], after + k);
      Associates(gaps[0], ts[0].text, after, k);
      ReadsFirst(ts[0].text + (after + k), ts[0], more, k);
      assert [ts[0]] + more == ts;
      ReadsAfterSpaces(gaps[0], ts[0].text + (after + k), ts, k);
    }
  }
}
