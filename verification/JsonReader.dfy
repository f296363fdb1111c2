/** The recursive-descent JSON reader, with its cursor, node stack and error list. */
module JsonReader {
  import opened Optional
  import opened JsonValue
  import opened JsonSyntax

  class Reader {
    const options: Options
    var doc: string
    var current: nat
    var nodes: seq<Json>
    var errors: seq<string>

    constructor (options: Options)
      ensures this.options == options
    {
      this.options := options;
      doc, current, nodes, errors := "", 0, [], [];
    }

    ghost predicate Valid()
      reads this`doc, this`current
    {
      current <= |doc|
    }

    /** The text that is left. */
    ghost function Rest(): string
      requires Valid()
      reads this`doc, this`current
    {
      doc[current..]
    }

    // ------------------------------------------------------------ characters

    method GetNextChar() returns (c: char)
      requires Valid()
      modifies this`current
      ensures Valid()
      ensures old(Rest()) == "" ==> c == '\0' && Rest() == ""
      ensures old(Rest()) != "" ==> c == old(Rest())[0] && Rest() == old(Rest())[1..]
    {
      if current == |doc| {
        return '\0';
      }
      c := doc[current];
      current := current + 1;
    }

    method SkipSpaces()
      requires Valid()
      modifies this`current
      ensures Valid() && Rest() == JsonSyntax.SkipSpaces(old(Rest())) && current >= old(current)
    {
      while current != |doc|
        invariant Valid() && current >= old(current)
        invariant JsonSyntax.SkipSpaces(Rest()) == JsonSyntax.SkipSpaces(old(Rest()))
      {
        if !IsSpace(doc[current]) {
          break;
        }
        assert Rest()[1..] == doc[current + 1..];
        current := current + 1;
      }
    }

    method Match(pattern: string) returns (ok: bool)
      requires Valid()
      modifies this`current
      ensures Valid() && Scan(ok, Rest()) == WordRest(pattern, old(Rest()))
    {
      if |doc| - current < |pattern| {
        return false;
      }
      var index := |pattern|;
      while index > 0
        invariant 0 <= index <= |pattern|
        invariant doc[current + index..current + |pattern|] == pattern[index..]
      {
        index := index - 1;
        if doc[current + index] != pattern[index] {
          assert Rest()[index] != pattern[index];
          return false;
        }
      }
      assert Rest()[..|pattern|] == pattern;
      current := current + |pattern|;
      return true;
    }

    method ReadCStyleComment() returns (ok: bool)
      requires Valid()
      modifies this`current
      ensures Valid() && Scan(ok, Rest()) == BlockCommentRest(old(Rest()))
    {
      while current != |doc|
        invariant Valid() && BlockCommentRest(Rest()) == BlockCommentRest(old(Rest()))
        decreases |doc| - current
      {
        ghost var before := Rest();
        var c := GetNextChar();
        if c == '*' && current < |doc| && doc[current] == '/' {
          assert before[1] == '/' && Rest()[1..] == before[2..];
          break;
        }
      }
      var c := GetNextChar();
      return c == '/';
    }

    method ReadCppStyleComment()
      requires Valid()
      modifies this`current
      ensures Valid() && Rest() == LineCommentRest(old(Rest()))
    {
      while current != |doc|
        invariant Valid() && LineCommentRest(Rest()) == LineCommentRest(old(Rest()))
        decreases |doc| - current
      {
        var c := GetNextChar();
        if c == '\r' || c == '\n' {
          break;
        }
      }
    }

    method ReadComment() returns (ok: bool)
      requires Valid()
      modifies this`current
      ensures Valid() && Scan(ok, Rest()) == CommentRest(old(Rest()))
    {
      var c := GetNextChar();
      ok := false;
      if c == '*' {
        ok := ReadCStyleComment();
      } else if c == '/' {
        ReadCppStyleComment();
        ok := true;
      }
    }

    method ReadNumber()
      requires Valid()
      modifies this`current
      ensures Valid() && Rest() == NumberRest(old(Rest()))
    {
      while current != |doc|
        invariant Valid() && NumberRest(Rest()) == NumberRest(old(Rest()))
      {
        if !IsNumberChar(doc[current]) {
          break;
        }
        assert Rest()[1..] == doc[current + 1..];
        current := current + 1;
      }
    }

    method ReadString() returns (ok: bool)
      requires Valid()
      modifies this`current
      ensures Valid() && Scan(ok, Rest()) == StringRest(old(Rest()))
    {
      var c := '\0';
      while current != |doc|
        invariant Valid() && c != '"' && StringRest(Rest()) == StringRest(old(Rest()))
        decreases |doc| - current
      {
        ghost var before := Rest();
        c := GetNextChar();
        if c == '\\' {
          var _ := GetNextChar();
          assert |before| > 1 ==> Rest() == before[2..];
        } else if c == '"' {
          break;
        }
      }
      return c == '"';
    }

    // ---------------------------------------------------------------- tokens

    /** What belongs to a token after its first character. */
    method ReadTokenRest(k: Kind) returns (ok: bool)
      requires Valid()
      modifies this`current
      ensures Valid() && Scan(ok, Rest()) == TokenRest(k, old(Rest()))
    {
      ok := true;
      match k
      case String => ok := ReadString();
      case Comment => ok := ReadComment();
      case Number => ReadNumber();
      case True => ok := Match("rue");
      case False => ok := Match("alse");
      case NullWord => ok := Match("ull");
      case Error => ok := false;
      case _ =>
    }

    method ReadToken() returns (token: Token)
      requires Valid()
      modifies this`current
      ensures Valid() && Lexed(token, Rest()) == NextToken(old(Rest()))
    {
      SkipSpaces();
      var start := current;
      ghost var t := Rest();
      var c := GetNextChar();
      if start == |doc| {
        return Token(EndOfStream, "");
      }
      var ok := ReadTokenRest(FirstKind(c));
      assert t[..|t| - |Rest()|] == doc[start..current];
      token := Token(if ok then FirstKind(c) else Error, doc[start..current]);
    }

    /** The next token that is not a comment. */
    method ReadPlainToken() returns (token: Token)
      requires Valid()
      modifies this`current
      ensures Valid() && Lexed(token, Rest()) == NextPlain(old(Rest()))
    {
      token := ReadToken();
      while token.kind == Comment
        invariant Valid()
        invariant (if token.kind == Comment then NextPlain(Rest()) else Lexed(token, Rest())) == NextPlain(old(Rest()))
        decreases token.kind == Comment, |doc| - current
      {
        ghost var before := Rest();
        token := ReadToken();
        assert |Rest()| <= |before|;
      }
    }

    method SkipCommentTokens() returns (token: Token)
      requires Valid()
      modifies this`current
      ensures Valid() && Lexed(token, Rest()) == NextSignificant(options, old(Rest()))
    {
      if options.comments {
        token := ReadPlainToken();
      } else {
        token := ReadToken();
      }
    }

    // ---------------------------------------------------------------- errors

    method AddError(message: string)
      modifies this`errors
      ensures errors == old(errors) + [message]
    {
      errors := errors + [message];
    }

    /** Skips tokens up to one of the kind; this stops at the end of the text at the latest. */
    method RecoverFromError(skipUntil: Kind)
      requires Valid()
      modifies this`current
      ensures Valid() && Rest() == Recover(skipUntil, old(Rest()))
    {
      while true
        invariant Valid() && Recover(skipUntil, Rest()) == Recover(skipUntil, old(Rest()))
        decreases |doc| - current
      {
        ghost var before := Rest();
        var skip := ReadToken();
        if skip.kind == skipUntil || skip.kind == EndOfStream {
          break;
        }
        assert |Rest()| < |before|;
      }
    }

    method AddErrorAndRecover(message: string, skipUntil: Kind)
      requires Valid()
      modifies this`current, this`errors
      ensures Valid() && Rest() == Recover(skipUntil, old(Rest()))
      ensures errors == old(errors) + [message]
    {
      AddError(message);
      RecoverFromError(skipUntil);
    }

    // --------------------------------------------------------------- numbers

    method DecodeDouble(text: string) returns (v: Option<Json>)
      modifies this`errors
      ensures v == DecodeReal(options.scan, text)
      ensures Reported(v.Some?, old(errors), errors)
    {
      match options.scan(text)
      case Some(x) => v := Some(Real(x));
      case None =>
        AddError("'" + text + "' is not a number.");
        v := None;
    }

    method SeemsDouble(text: string) returns (isDouble: bool)
      ensures isDouble == LooksReal(text)
    {
      isDouble := false;
      for i := 0 to |text|
        invariant isDouble <==> exists j :: 0 <= j < i && MarksReal(text, j)
      {
        var c := text[i];
        var marks := c == '.' || c == 'e' || c == 'E' || c == '+' || (c == '-' && i > 0);
        assert marks == MarksReal(text, i);
        isDouble := isDouble || marks;
      }
    }

    method DecodeNumber(text: string) returns (v: Option<Json>)
      requires text != ""
      modifies this`errors
      ensures v == JsonSyntax.DecodeNumber(options.scan, text)
      ensures Reported(v.Some?, old(errors), errors)
    {
      var isDouble := SeemsDouble(text);
      if isDouble {
        v := DecodeDouble(text);
        return;
      }
      var isNegative := text[0] == '-';
      var at := if isNegative then 1 else 0;
      var threshold := if isNegative then NEGATIVE_THRESHOLD else POSITIVE_THRESHOLD;
      var value: nat := 0;
      ghost var digits := ReadDigits(text[at..], 0, threshold);
      while at < |text|
        invariant at <= |text|
        invariant ReadDigits(text[at..], value, threshold) == digits
        invariant value <= MAX_UINT
      {
        var c := text[at];
        assert text[at..][1..] == text[at + 1..];
        at := at + 1;
        if !IsDigit(c) {
          AddError("'" + text + "' is not a number.");
          v := None;
          return;
        }
        if value >= threshold {
          v := DecodeDouble(text);
          return;
        }
        value := value * 10 + DigitValue(c);
      }
      v := Some(if isNegative then Int(0 - value) else if value <= MAX_INT then Int(value) else UInt(value));
    }

    // --------------------------------------------------------------- strings

    method DecodeUnicodeEscapeSequence(s: string) returns (unit: Option<nat>)
      modifies this`errors
      ensures unit == HexUnit(s) && Reported(unit.Some?, old(errors), errors)
    {
      if |s| < 4 {
        AddError("Bad unicode escape sequence in string: four digits expected.");
        return None;
      }
      var value: nat := 0;
      for index := 0 to 4
        invariant forall i :: 0 <= i < index ==> IsHex(s[i])
        invariant value == HexPrefix(s, index)
        invariant |errors| == |old(errors)|
      {
        if !IsHex(s[index]) {
          AddError("Bad unicode escape sequence in string: hexadecimal digit expected.");
          return None;
        }
        value := value * 16 + HexDigit(s[index]);
      }
      HexPrefixFour(s);
      unit := Some(value);
    }

    method DecodeUnicodeCodePoint(s: string) returns (r: Option<CodePoint>)
      modifies this`errors
      ensures r == ReadCodePoint(s) && Reported(r.Some?, old(errors), errors)
    {
      var unit := DecodeUnicodeEscapeSequence(s);
      if unit.None? {
        return None;
      }
      if unit.value < 0xD800 || unit.value > 0xDBFF {
        return Some(CodePoint(unit.value, 4));
      }
      r := DecodeSecondHalf(s, unit.value);
    }

    method DecodeSecondHalf(s: string, unit: nat) returns (r: Option<CodePoint>)
      modifies this`errors
      ensures r == SecondHalf(s, unit) && Reported(r.Some?, old(errors), errors)
    {
      if |s| < 10 {
        AddError("additional six characters expected to parse unicode surrogate pair.");
        return None;
      }
      if s[4] == '\\' && s[5] == 'u' {
        var low := DecodeUnicodeEscapeSequence(s[6..]);
        if low.None? {
          return None;
        }
        r := Some(CodePoint(Joined(unit, low.value), 10));
      } else {
        AddError("expecting another \\u token to begin the second half of a unicode surrogate pair");
        r := None;
      }
    }

    /** One escape, after its backslash: the characters it stands for, and how many spell it. */
    method DecodeEscape(s: string) returns (r: Option<Escape>)
      requires s != ""
      modifies this`errors
      ensures Reported(r.Some?, old(errors), errors)
      ensures r.Some? ==> 0 < r.value.length <= |s|
      ensures Decode(['\\'] + s) == AfterEscape(r, s)
    {
      assert (['\\'] + s)[2..] == s[1..];
      if s[0] == 'u' {
        var cp := DecodeUnicodeCodePoint(s[1..]);
        match cp
        case None => r := None;
        case Some(c) =>
          assert (['\\'] + s)[2 + c.length..] == s[1 + c.length..];
          r := Some(Escape(Utf8(c.cp), 1 + c.length));
      } else {
        match ShortEscape(s[0])
        case Some(c) => r := Some(Escape([c], 1));
        case None =>
          AddError("Bad escape sequence in string");
          r := None;
      }
    }

    /** One character of a string, or one escape. */
    method DecodeCharacter(s: string) returns (r: Option<Escape>)
      requires s != "" && s[0] != '"'
      modifies this`errors
      ensures Reported(r.Some?, old(errors), errors)
      ensures r.Some? ==> 0 < r.value.length <= |s|
      ensures Decode(s) == AfterEscape(r, s)
    {
      if s[0] != '\\' {
        r := Some(Escape([s[0]], 1));
      } else if |s| == 1 {
        AddError("Empty escape sequence in string");
        r := None;
      } else {
        r := DecodeEscape(s[1..]);
        EscapeStep(s, r);
        r := if r.Some? then Some(Escape(r.value.text, r.value.length + 1)) else None;
      }
    }

    method DecodeString(text: string) returns (r: Option<string>)
      requires |text| >= 2
      modifies this`errors
      ensures r == JsonSyntax.DecodeString(text) && Reported(r.Some?, old(errors), errors)
    {
      var rest := text[1..|text| - 1];
      var decoded := "";
      ghost var whole := Decode(rest);
      PrependNothing(whole);
      while rest != "" && rest[0] != '"'
        invariant |errors| == |old(errors)|
        invariant Prepend(decoded, Decode(rest)) == whole
        decreases |rest|
      {
        var c := DecodeCharacter(rest);
        CharacterStep(rest, c, decoded);
        if c.None? {
          return None;
        }
        decoded, rest := decoded + c.value.text, rest[c.value.length..];
      }
      assert decoded + "" == decoded;
      r := Some(decoded);
    }

    // ---------------------------------------------------------------- values

    method SetCurrentValue(v: Json)
      requires nodes != []
      modifies this`nodes
      ensures OthersKept(old(nodes), nodes) && Top(nodes) == v
    {
      nodes := Below(nodes) + [v];
    }

    /** Reads a value into the node on top; the stack is back at its depth in every case. */
    method ReadValue() returns (ok: bool)
      requires Valid() && nodes != []
      modifies this`current, this`nodes, this`errors
      ensures Valid() && OthersKept(old(nodes), nodes) && Reported(ok, old(errors), errors)
      ensures Outcome(ok, Top(nodes), Rest(), ParseValue(options, old(Rest())))
      decreases |doc| - current, 1
    {
      var token := SkipCommentTokens();
      match token.kind
      case ObjectBegin => ok := ReadObject();
      case ArrayBegin => ok := ReadArray();
      case _ => ok := ReadScalar(token);
    }

    /** A value in one token, or a token that is not a value. */
    method DecodeScalar(token: Token) returns (v: Option<Json>)
      requires Shaped(token)
      modifies this`errors
      ensures v == Scalar(options, token) && Reported(v.Some?, old(errors), errors)
    {
      match token.kind
      case Number => v := DecodeNumber(token.text);
      case String =>
        var s := DecodeString(token.text);
        v := match s case Some(text) => Some(Str(text)) case None => None;
      case True => v := Some(Bool(true));
      case False => v := Some(Bool(false));
      case NullWord => v := Some(Null);
      case _ =>
        AddError("Syntax error: value, object or array expected.");
        v := None;
    }

    method ReadScalar(token: Token) returns (ok: bool)
      requires nodes != [] && Shaped(token)
      modifies this`nodes, this`errors
      ensures OthersKept(old(nodes), nodes)
      ensures Reported(ok, old(errors), errors)
      ensures ok == Scalar(options, token).Some? && (ok ==> Top(nodes) == Scalar(options, token).value)
    {
      var v := DecodeScalar(token);
      ok := v.Some?;
      if ok {
        SetCurrentValue(v.value);
      }
    }

    /** Reads a value into a new node on the stack and takes it off again. */
    method ReadChild(initial: Json) returns (ok: bool, v: Json)
      requires Valid() && nodes != []
      modifies this`current, this`nodes, this`errors
      ensures Valid() && nodes == old(nodes) && current >= old(current) && Reported(ok, old(errors), errors)
      ensures Outcome(ok, v, Rest(), ParseValue(options, old(Rest())))
      decreases |doc| - current, 2
    {
      nodes := nodes + [initial];
      ok := ReadValue();
      v := Top(nodes);
      nodes := nodes[..|nodes| - 1];
    }

    method ReadArray() returns (ok: bool)
      requires Valid() && nodes != []
      modifies this`current, this`nodes, this`errors
      ensures Valid() && OthersKept(old(nodes), nodes) && Reported(ok, old(errors), errors)
      ensures Outcome(ok, Top(nodes), Rest(), ParseArray(options, old(Rest())))
      decreases |doc| - current, 5
    {
      SetCurrentValue(Arr([]));
      ghost var before := Rest();
      SkipSpaces();
      ArrayAhead(options, before, Rest());
      if current < |doc| && doc[current] == ']' {
        var _ := ReadToken();
        ok := true;
      } else {
        ok := ReadItems();
      }
    }

    /** One more item on the array on top. */
    method ReadItem(items: seq<Json>) returns (ok: bool, more: seq<Json>)
      requires Valid() && nodes != [] && Top(nodes) == Arr(items)
      modifies this`current, this`nodes, this`errors
      ensures Valid() && OthersKept(old(nodes), nodes) && Top(nodes) == Arr(more) && Reported(ok, old(errors), errors)
      ensures var p := ParseValue(options, old(Rest()));
              Rest() == p.rest && ok == p.Success? && (ok ==> more == items + [p.value])
      decreases |doc| - current, 3
    {
      var v;
      ok, v := ReadChild(Null);
      more := items + [v];
      SetCurrentValue(Arr(more));
    }

    /** The items of an array; whatever token follows an item, another item is read unless it closes the array. */
    method ReadItems() returns (ok: bool)
      requires Valid() && nodes != [] && Top(nodes) == Arr([])
      modifies this`current, this`nodes, this`errors
      ensures Valid() && OthersKept(old(nodes), nodes) && Reported(ok, old(errors), errors)
      ensures Outcome(ok, Top(nodes), Rest(), ParseItems(options, old(Rest()), []))
      decreases |doc| - current, 4
    {
      ghost var whole := ParseItems(options, Rest(), []);
      var items: seq<Json> := [];
      while true
        invariant Valid() && OthersKept(old(nodes), nodes) && |errors| == |old(errors)|
        invariant current >= old(current) && Top(nodes) == Arr(items)
        invariant ParseItems(options, Rest(), items) == whole
        decreases |doc| - current
      {
        ghost var start := Rest();
        ok, items := ReadItem(items);
        if !ok {
          RecoverFromError(ArrayEnd);
          return;
        }
        assert |Rest()| < |start|;
        ghost var after := Rest();
        var token := ReadPlainToken();
        if token.kind == ArrayEnd {
          return true;
        }
        assert |Rest()| <= |after|;
      }
    }

    method ReadObject() returns (ok: bool)
      requires Valid() && nodes != []
      modifies this`current, this`nodes, this`errors
      ensures Valid() && OthersKept(old(nodes), nodes) && Reported(ok, old(errors), errors)
      ensures Outcome(ok, Top(nodes), Rest(), ParseMembers(options, old(Rest()), "", []))
      decreases |doc| - current, 6
    {
      SetCurrentValue(Obj([]));
      ghost var whole := ParseMembers(options, Rest(), "", []);
      var next := Again("");
      while next.Again?
        invariant Valid() && OthersKept(old(nodes), nodes) && current >= old(current)
        invariant Reported(next.Again? || next.ok, old(errors), errors)
        invariant Agrees(options, next, Top(nodes), Rest(), whole)
        decreases next.Again?, |doc| - current
      {
        next := ReadMember(next.name);
      }
      ok := next.ok;
    }

    /** One member and what follows it; `name` is the name of the one before. */
    method ReadMember(name: string) returns (next: Next)
      requires Valid() && nodes != [] && Top(nodes).Obj?
      modifies this`current, this`nodes, this`errors
      ensures Valid() && OthersKept(old(nodes), nodes) && Reported(next.Again? || next.ok, old(errors), errors)
      ensures current >= old(current) && (next.Again? ==> current > old(current))
      ensures Agrees(options, next, Top(nodes), Rest(), ParseMembers(options, old(Rest()), name, old(Top(nodes).members)))
      decreases |doc| - current, 5
    {
      ghost var before := Rest();
      var token := ReadPlainToken();
      assert |Rest()| <= |before|;
      if token.kind == ObjectEnd && name == "" {
        next := Finished(true);
      } else if token.kind != String {
        AddErrorAndRecover("Missing '}' or object member name", ObjectEnd);
        next := Finished(false);
      } else {
        assert |Rest()| < |before|;
        var key := DecodeString(token.text);
        if key.Some? {
          next := ReadNamed(key.value);
        } else {
          RecoverFromError(ObjectEnd);
          next := Finished(false);
        }
      }
    }

    /** The colon, the value and what follows it. */
    method ReadNamed(key: string) returns (next: Next)
      requires Valid() && nodes != [] && Top(nodes).Obj?
      modifies this`current, this`nodes, this`errors
      ensures Valid() && OthersKept(old(nodes), nodes) && Reported(next.Again? || next.ok, old(errors), errors)
      ensures current >= old(current)
      ensures Agrees(options, next, Top(nodes), Rest(), ParseNamed(options, old(Rest()), key, old(Top(nodes).members)))
      decreases |doc| - current, 4
    {
      ghost var before := Rest();
      var colon := ReadToken();
      assert |Rest()| <= |before|;
      if colon.kind != MemberSeparator {
        AddErrorAndRecover("Missing ':' after object member name", ObjectEnd);
        next := Finished(false);
      } else {
        var ok := ReadMemberValue(key);
        if ok {
          next := ReadSeparator(key);
        } else {
          RecoverFromError(ObjectEnd);
          next := Finished(false);
        }
      }
    }

    /** The value of a member, which replaces the value of a member of the same name. */
    method ReadMemberValue(key: string) returns (ok: bool)
      requires Valid() && nodes != [] && Top(nodes).Obj?
      modifies this`current, this`nodes, this`errors
      ensures Valid() && OthersKept(old(nodes), nodes) && current >= old(current) && Reported(ok, old(errors), errors)
      ensures var p := ParseValue(options, old(Rest()));
              Rest() == p.rest && ok == p.Success? && (ok ==> Top(nodes) == Obj(Put(old(Top(nodes).members), key, p.value)))
      decreases |doc| - current, 3
    {
      var ms := Top(nodes).members;
      var present := Lookup(ms, key);
      var v;
      ok, v := ReadChild(if present.Some? then present.value else Null);
      SetCurrentValue(Obj(Put(ms, key, v)));
    }

    /** What follows a member. */
    method ReadSeparator(name: string) returns (next: Next)
      requires Valid() && nodes != [] && Top(nodes).Obj?
      modifies this`current, this`errors
      ensures Valid() && current >= old(current) && Reported(next.Again? || next.ok, old(errors), errors)
      ensures Agrees(options, next, Top(nodes), Rest(), AfterMember(options, old(Rest()), name, Top(nodes).members))
    {
      var comma := ReadToken();
      if comma.kind != ObjectEnd && comma.kind != ArraySeparator && comma.kind != Comment {
        AddErrorAndRecover("Missing ',' or '}' in object declaration", ObjectEnd);
        return Finished(false);
      }
      if comma.kind == Comment {
        comma := ReadPlainToken();
      }
      next := if comma.kind == ObjectEnd then Finished(true) else Again(name);
    }

    /** Reads a document: exactly the values of the grammar functions, and no errors exactly on success. */
    method Parse(document: string, root: Json) returns (ok: bool, value: Json)
      modifies this
      ensures ok == ParseDocument(options, document).Some? && (ok ==> value == ParseDocument(options, document).value)
      ensures ok <==> errors == []
      ensures |nodes| == 1
    {
      doc, current, errors, nodes := document, 0, [], [root];
      assert doc[0..] == doc;
      ok := ReadValue();
      value := Top(nodes);
      var _ := SkipCommentTokens();
      if options.strictRoot && !value.Arr? && !value.Obj? {
        AddError("A valid JSON document must be either an array or an object value.");
        ok := false;
      }
    }
  }

  /** After a member of an object: finished, or another member is to be read. */
  datatype Next = Finished(ok: bool) | Again(name: string)

  predicate Agrees(o: Options, next: Next, v: Json, rest: string, p: Parsed) {
    match next
    case Finished(ok) => Outcome(ok, v, rest, p)
    case Again(name) => v.Obj? && ParseMembers(o, rest, name, v.members) == p
  }

  lemma {:induction false} SkippedOnce(s: string)
    ensures JsonSyntax.SkipSpaces(JsonSyntax.SkipSpaces(s)) == JsonSyntax.SkipSpaces(s)
  {
    if s != "" && IsSpace(s[0]) {
      SkippedOnce(s[1..]);
    }
  }

  /** The next token closes an array exactly when a closing bracket follows the white space. */
  lemma {:induction false} BracketAhead(s: string)
    ensures var t := JsonSyntax.SkipSpaces(s);
            NextToken(t) == NextToken(s) && (NextToken(s).token.kind == ArrayEnd <==> t != "" && t[0] == ']')
  {
    SkippedOnce(s);
  }

  lemma {:induction false} ArrayAhead(o: Options, s: string, t: string)
    requires t == JsonSyntax.SkipSpaces(s)
    ensures ParseArray(o, s) ==
            if t != "" && t[0] == ']' then Success(Arr([]), NextToken(t).rest) else ParseItems(o, t, [])
  {
    BracketAhead(s);
    assert NextSignificant(o, t) == NextSignificant(o, s);
    assert ParseValue(o, t) == ParseValue(o, s);
  }

  function Top(nodes: seq<Json>): Json
    requires nodes != []
  {
    nodes[|nodes| - 1]
  }

  function Below(nodes: seq<Json>): seq<Json>
    requires nodes != []
  {
    nodes[..|nodes| - 1]
  }

  /** Nothing but the node on top has changed. */
  predicate OthersKept(before: seq<Json>, after: seq<Json>) {
    |after| == |before| > 0 && Below(after) == Below(before)
  }

  /** What the reader did is what the grammar functions say. */
  predicate Outcome(ok: bool, v: Json, rest: string, p: Parsed) {
    rest == p.rest && ok == p.Success? && (ok ==> v == p.value)
  }

  /** Exactly one error is added when something fails, none when it succeeds. */
  predicate Reported(ok: bool, before: seq<string>, after: seq<string>) {
    |after| == |before| + if ok then 0 else 1
  }

  datatype Escape = Escape(text: string, length: nat)

  function AfterEscape(r: Option<Escape>, s: string): Option<string>
    requires r.Some? ==> r.value.length <= |s|
  {
    match r case None => None case Some(e) => Prepend(e.text, Decode(s[e.length..]))
  }

  lemma {:induction false} EscapeStep(s: string, r: Option<Escape>)
    requires |s| > 1 && s[0] == '\\' && (r.Some? ==> r.value.length < |s|)
    requires Decode(['\\'] + s[1..]) == AfterEscape(r, s[1..])
    ensures Decode(s) == if r.None? then None else Prepend(r.value.text, Decode(s[r.value.length + 1..]))
  {
    assert s == ['\\'] + s[1..];
    if r.Some? {
      assert s[1..][r.value.length..] == s[r.value.length + 1..];
    }
  }

  lemma {:induction false} CharacterStep(rest: string, r: Option<Escape>, decoded: string)
    requires (r.Some? ==> r.value.length <= |rest|) && Decode(rest) == AfterEscape(r, rest)
    ensures Prepend(decoded, Decode(rest)) ==
            if r.None? then None else Prepend(decoded + r.value.text, Decode(rest[r.value.length..]))
  {
    if r.Some? {
      PrependTwice(decoded, r.value.text, Decode(rest[r.value.length..]));
    }
  }

  function HexPrefix(s: string, n: nat): nat
    requires n <= |s| && forall i :: 0 <= i < n ==> IsHex(s[i])
  {
    if n == 0 then 0 else HexPrefix(s, n - 1) * 16 + HexDigit(s[n - 1])
  }

  lemma {:induction false} HexPrefixFour(s: string)
    requires |s| >= 4 && forall i :: 0 <= i < 4 ==> IsHex(s[i])
    ensures HexUnit(s) == Some(HexPrefix(s, 4))
  {
    assert HexPrefix(s, 1) == HexDigit(s[0]);
    assert HexPrefix(s, 2) == HexDigit(s[0]) * 16 + HexDigit(s[1]);
    assert HexPrefix(s, 3) == (HexDigit(s[0]) * 16 + HexDigit(s[1])) * 16 + HexDigit(s[2]);
  }

  lemma {:induction false} PrependNothing(r: Option<string>)
    ensures Prepend("", r) == r
  {
    match r
    case None =>
    case Some(s) => assert "" + s == s;
  }

  lemma {:induction false} PrependTwice(a: string, b: string, r: Option<string>)
    ensures Prepend(a, Prepend(b, r)) == Prepend(a + b, r)
  {
    match r
    case None =>
    case Some(s) => assert a + (b + s) == a + b + s;
  }
}
