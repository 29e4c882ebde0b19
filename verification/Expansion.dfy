/** Environment expansion of configuration strings: a one-pass scanner, specified by a
    tokenisation that never looks at the environment. */
module Expansion {
  import opened Wrappers

  type Lookup = string -> Option<string>

  predicate IsASCIILetter(c: char) {
    'A' <= c <= 'Z' || 'a' <= c <= 'z'
  }

  predicate NameHead(c: char) {
    IsASCIILetter(c) || c == '_'
  }

  predicate NameTail(c: char) {
    NameHead(c) || '0' <= c <= '9'
  }

  predicate NameTails(s: string) {
    |s| == 0 || (NameTail(s[0]) && NameTails(s[1..]))
  }

  predicate IsName(s: string) {
    |s| > 0 && NameHead(s[0]) && NameTails(s[1..])
  }

  lemma {:induction false} NameTailsAll(s: string)
    ensures NameTails(s) <==> forall i :: 0 <= i < |s| ==> NameTail(s[i])
  {
    if |s| > 0 {
      NameTailsAll(s[1..]);
      assert forall i :: 0 < i < |s| ==> s[i] == s[1..][i - 1];
    }
  }

  /** A name, spelled out. */
  predicate PlainName(name: string) {
    && |name| > 0 && ('A' <= name[0] <= 'Z' || 'a' <= name[0] <= 'z' || name[0] == '_')
    && forall i :: 1 <= i < |name| ==>
         'A' <= name[i] <= 'Z' || 'a' <= name[i] <= 'z' || name[i] == '_' || '0' <= name[i] <= '9'
  }

  /** Names are a letter or underscore followed by letters, digits and underscores. */
  method ValidEnvironmentName(name: string) returns (ok: bool)
    ensures ok <==> IsName(name)
    ensures ok <==> PlainName(name)
  {
    if |name| == 0 || (!IsASCIILetter(name[0]) && name[0] != '_') {
      return false;
    }
    NameTailsAll(name[1..]);
    assert forall i :: 1 <= i < |name| ==> name[i] == name[1..][i - 1];
    for i := 1 to |name|
      invariant forall j :: 1 <= j < i ==> NameTail(name[j])
    {
      if !IsASCIILetter(name[i]) && (name[i] < '0' || name[i] > '9') && name[i] != '_' {
        return false;
      }
    }
    return true;
  }

  // ---------- sequences ----------

  lemma ShiftBracket<T>(a: seq<T>, x: T, c: seq<T>)
    ensures a + ([x] + c) == (a + [x]) + c
  {
  }

  lemma Assoc<T>(a: seq<T>, b: seq<T>, c: seq<T>)
    ensures a + (b + c) == a + b + c
  {
  }

  lemma ConsSlices<T>(x: T, rest: seq<T>, k: nat)
    requires 0 < k <= |rest| + 1
    ensures ([x] + rest)[..k] == [x] + rest[..k - 1]
    ensures ([x] + rest)[k..] == rest[k - 1..]
    ensures ([x] + rest[..k - 1])[1..] == rest[..k - 1]
  {
  }

  lemma CutAt<T>(s: seq<T>, w: nat)
    requires w <= |s|
    ensures s == s[..w] + s[w..]
  {
  }

  lemma DropTwice<T>(s: seq<T>, i: nat, w: nat)
    requires i + w <= |s|
    ensures s[i..][w..] == s[i + w..]
  {
  }

  // ---------- tokens ----------

  datatype Token =
    | Plain(c: char)
    | Escape
    | BareDollar
    | Reference(name: string)
    | Malformed(inner: string)
    | Unclosed(tail: string)

  function Spelling(t: Token): string {
    match t
    case Plain(c) => [c]
    case Escape => "$$"
    case BareDollar => "$"
    case Reference(name) => "${" + name + "}"
    case Malformed(inner) => "${" + inner + "}"
    case Unclosed(tail) => "${" + tail
  }

  /** How many characters a token takes. */
  function Width(t: Token): nat {
    match t
    case Plain(_) => 1
    case Escape => 2
    case BareDollar => 1
    case Reference(name) => |name| + 3
    case Malformed(inner) => |inner| + 3
    case Unclosed(tail) => |tail| + 2
  }

  function Spell(ts: seq<Token>): string {
    if |ts| == 0 then "" else Spelling(ts[0]) + Spell(ts[1..])
  }

  /** Offset of the first occurrence of c, or |s|. */
  function IndexOf(s: string, c: char): (i: nat)
    ensures i <= |s|
  {
    if |s| == 0 || s[0] == c then 0 else 1 + IndexOf(s[1..], c)
  }

  lemma {:induction false} IndexOfFacts(s: string, c: char)
    ensures var i := IndexOf(s, c); (i < |s| ==> s[i] == c) && forall j :: 0 <= j < i ==> s[j] != c
  {
    if |s| > 0 && s[0] != c { IndexOfFacts(s[1..], c); }
  }

  function FirstToken(s: string): (t: Token)
    requires |s| > 0
    ensures 0 < Width(t) <= |s|
  {
    if s[0] != '$' then Plain(s[0])
    else if 1 < |s| && s[1] == '$' then Escape
    else if 1 >= |s| || s[1] != '{' then BareDollar
    else
      var end := IndexOf(s[2..], '}');
      if end == |s| - 2 then Unclosed(s[2..])
      else
        var name := s[2..2 + end];
        if IsName(name) then Reference(name) else Malformed(name)
  }

  lemma {:induction false} IndexOfIs(s: string, c: char, k: nat)
    requires k < |s| && s[k] == c && forall j :: 0 <= j < k ==> s[j] != c
    ensures IndexOf(s, c) == k
  {
    if k > 0 {
      assert s[1..][k - 1] == c && forall j :: 0 <= j < k - 1 ==> s[1..][j] == s[j + 1];
      IndexOfIs(s[1..], c, k - 1);
    }
  }

  /** A dollar and a brace with the first closing brace at end. */
  lemma BracedToken(value: string, i: nat, end: nat)
    requires i + 2 <= end < |value| && value[i] == '$' && value[i + 1] == '{' && value[end] == '}'
    requires forall j :: i + 2 <= j < end ==> value[j] != '}'
    ensures var name := value[i + 2..end];
            && FirstToken(value[i..]) == (if IsName(name) then Reference(name) else Malformed(name))
            && value[i..end + 1] == "${" + name + "}"
  {
    var rest := value[i..];
    var k := end - (i + 2);
    var inner := rest[2..];
    assert inner[k] == '}' && forall j :: 0 <= j < k ==> inner[j] == value[i + 2 + j];
    IndexOfIs(inner, '}', k);
    assert rest[2..2 + k] == value[i + 2..end];
  }

  /** A token is spelled by the characters it takes. */
  lemma FirstTokenSpelling(s: string)
    requires |s| > 0
    ensures Spelling(FirstToken(s)) == s[..Width(FirstToken(s))]
  {
    if |s| > 1 && s[0] == '$' && s[1] == '{' {
      var k := IndexOf(s[2..], '}');
      IndexOfFacts(s[2..], '}');
      if k < |s| - 2 {
        assert s[0..] == s;
        BracedToken(s, 0, 2 + k);
      } else {
        assert s == "${" + s[2..];
      }
    }
  }

  function Tokenize(s: string): seq<Token> {
    if |s| == 0 then [] else [FirstToken(s)] + Tokenize(s[Width(FirstToken(s))..])
  }

  /** Tokens spell back the text they came from. */
  lemma {:induction false} TokensSpellTheInput(s: string)
    ensures Spell(Tokenize(s)) == s
  {
    if |s| > 0 {
      FirstTokenSpelling(s);
      TokensSpellTheInput(s[Width(FirstToken(s))..]);
    }
  }

  // ---------- meaning ----------

  /** What a token contributes; None only for a reference to an unset name. */
  function Meaning(t: Token, lookup: Lookup): Option<string> {
    match t
    case Escape => Some("$")
    case Reference(name) => lookup(name)
    case _ => Some(Spelling(t))
  }

  datatype Expanded = Expanded(text: string) | MissingName(name: string)

  /** The concatenated meanings, or the first unset name. */
  function Expand(ts: seq<Token>, lookup: Lookup): Expanded {
    if |ts| == 0 then Expanded("")
    else if Meaning(ts[0], lookup) == None then MissingName(ts[0].name)
    else
      match Expand(ts[1..], lookup)
      case MissingName(n) => MissingName(n)
      case Expanded(rest) => Expanded(Meaning(ts[0], lookup).value + rest)
  }

  /** Expansion distributes over any split of the tokens. */
  lemma {:induction false} ExpandConcat(a: seq<Token>, b: seq<Token>, lookup: Lookup)
    ensures Expand(a + b, lookup) ==
            match Expand(a, lookup)
            case MissingName(n) => MissingName(n)
            case Expanded(x) =>
              match Expand(b, lookup)
              case MissingName(n) => MissingName(n)
              case Expanded(y) => Expanded(x + y)
  {
    if |a| == 0 {
      assert a + b == b;
    } else {
      assert (a + b)[1..] == a[1..] + b;
      ExpandConcat(a[1..], b, lookup);
    }
  }

  /** A name is reported missing exactly when it is unset and every earlier reference is set. */
  lemma {:induction false} MissingIsFirstUnset(ts: seq<Token>, lookup: Lookup, name: string)
    ensures Expand(ts, lookup) == MissingName(name) <==>
              exists k :: 0 <= k < |ts| && ts[k] == Reference(name) && lookup(name) == None
                          && forall j :: 0 <= j < k ==> Meaning(ts[j], lookup).Some?
  {
    if |ts| > 0 {
      MissingIsFirstUnset(ts[1..], lookup, name);
      if k :| 0 <= k < |ts| && ts[k] == Reference(name) && lookup(name) == None
              && forall j :: 0 <= j < k ==> Meaning(ts[j], lookup).Some? {
        if k > 0 {
          assert ts[1..][k - 1] == Reference(name);
          assert forall j :: 0 <= j < k - 1 ==> ts[1..][j] == ts[j + 1];
        }
      }
      if Meaning(ts[0], lookup).Some? && Expand(ts[1..], lookup) == MissingName(name) {
        var k :| 0 <= k < |ts[1..]| && ts[1..][k] == Reference(name) && lookup(name) == None
                 && forall j :: 0 <= j < k ==> Meaning(ts[1..][j], lookup).Some?;
        assert ts[k + 1] == Reference(name);
        assert forall j :: 0 < j < k + 1 ==> ts[j] == ts[1..][j - 1];
      }
      if Meaning(ts[0], lookup) == None && Expand(ts, lookup) == MissingName(name) {
        assert ts[0] == Reference(name);
      }
    }
  }

  lemma {:induction false} TokensAreWellFormed(s: string)
    ensures forall t :: t in Tokenize(s) && t.Reference? ==> IsName(t.name)
  {
    if |s| > 0 {
      FirstTokenSpelling(s);
      TokensAreWellFormed(s[Width(FirstToken(s))..]);
    }
  }

  // ---------- cutting the text at a token boundary ----------

  /** Looking further ahead does not change a token that is complete and not at the end. */
  lemma FirstTokenOfPrefix(s: string, p: string)
    requires |s| > 0 && p <= s && Width(FirstToken(s)) <= |p|
    ensures |p| > 0 && FirstToken(p) == FirstToken(s)
  {
    FirstTokenSpelling(s);
    if s[0] == '$' && 1 < |s| && s[1] == '{' {
      var end := IndexOf(s[2..], '}');
      if end < |s| - 2 {
        var i := IndexOf(p[2..], '}');
        IndexOfFacts(s[2..], '}');
        IndexOfFacts(p[2..], '}');
        assert forall j :: 0 <= j < |p| - 2 ==> p[2..][j] == s[2..][j];
        assert i == end;
        assert p[2..2 + end] == s[2..2 + end];
      } else {
        assert p == s;
      }
    }
  }

  lemma TokenizeCons(s: string, t: Token, rest: string)
    requires s == Spelling(t) + rest && |s| > 0 && FirstToken(s) == t
    ensures Tokenize(s) == [t] + Tokenize(rest)
  {
    assert |Spelling(t)| == Width(t) && s[Width(t)..] == rest;
  }

  /** The tokens of a text are its first token and the tokens of what follows it. */
  lemma Uncons(s: string)
    requires |s| > 0
    ensures var t := FirstToken(s);
            var rest := s[Width(t)..];
            Tokenize(s) == [t] + Tokenize(rest) && s == Spelling(t) + rest
  {
    FirstTokenSpelling(s);
    CutAt(s, Width(FirstToken(s)));
  }

  /** A text that starts with the same token and stops earlier. */
  lemma PrefixTokens(s: string, t: Token, tail: string, later: string)
    requires |s| > 0 && FirstToken(s) == t && s == Spelling(t) + tail + later
    ensures Tokenize(Spelling(t) + tail) == [t] + Tokenize(tail)
  {
    var head := Spelling(t) + tail;
    assert |Spelling(t)| == Width(t);
    assert head <= s;
    FirstTokenOfPrefix(s, head);
    TokenizeCons(head, t, tail);
  }

  lemma SpellCons(t: Token, ts: seq<Token>)
    ensures Spell([t] + ts) == Spelling(t) + Spell(ts)
  {
    assert ([t] + ts)[1..] == ts;
  }

  /** Cutting a text at a token boundary cuts its tokens there: substituted text, which is not
      part of the input, can never take part in a token. */
  lemma {:induction false} TokenizeAtBoundary(s: string, k: nat)
    requires k <= |Tokenize(s)|
    ensures var head, later := Spell(Tokenize(s)[..k]), Spell(Tokenize(s)[k..]);
            s == head + later && Tokenize(head) == Tokenize(s)[..k] && Tokenize(later) == Tokenize(s)[k..]
  {
    var ts := Tokenize(s);
    if k == 0 {
      TokensSpellTheInput(s);
      assert ts[..0] == [] && ts[0..] == ts;
    } else {
      Uncons(s);
      var t := FirstToken(s);
      var rest := s[Width(t)..];
      var tail, later := Spell(Tokenize(rest)[..k - 1]), Spell(Tokenize(rest)[k - 1..]);
      TokenizeAtBoundary(rest, k - 1);
      ConsSlices(t, Tokenize(rest), k);
      Assoc(Spelling(t), tail, later);
      SpellCons(t, Tokenize(rest)[..k - 1]);
      PrefixTokens(s, t, tail, later);
    }
  }

  /** The value of a text is the value of its parts, at every token boundary. */
  lemma ExpansionDistributes(s: string, k: nat, lookup: Lookup)
    requires k <= |Tokenize(s)|
    ensures var head, later := Spell(Tokenize(s)[..k]), Spell(Tokenize(s)[k..]);
            s == head + later &&
            Expand(Tokenize(s), lookup) ==
            match Expand(Tokenize(head), lookup)
            case MissingName(n) => MissingName(n)
            case Expanded(x) =>
              match Expand(Tokenize(later), lookup)
              case MissingName(n) => MissingName(n)
              case Expanded(y) => Expanded(x + y)
  {
    TokenizeAtBoundary(s, k);
    var ts := Tokenize(s);
    assert ts == ts[..k] + ts[k..];
    ExpandConcat(ts[..k], ts[k..], lookup);
  }

  // ---------- expansion, form by form ----------

  /** The value of a text. */
  function Value(s: string, lookup: Lookup): Expanded {
    Expand(Tokenize(s), lookup)
  }

  /** The value of what starts with a text and goes on like this. */
  function Then(text: string, rest: Expanded): Expanded {
    match rest
    case Expanded(x) => Expanded(text + x)
    case MissingName(n) => MissingName(n)
  }

  lemma ValueCons(s: string, t: Token, rest: string, lookup: Lookup)
    requires s == Spelling(t) + rest && |s| > 0 && FirstToken(s) == t
    ensures Value(s, lookup) == match Meaning(t, lookup)
                                case None => MissingName(t.name)
                                case Some(text) => Then(text, Value(rest, lookup))
  {
    TokenizeCons(s, t, rest);
    var ts := Tokenize(s);
    assert ts[0] == t && ts[1..] == Tokenize(rest);
  }

  /** Ordinary characters stand for themselves, two dollars for one, and a dollar before anything
      but a dollar or an opening brace for itself. */
  lemma ValueOfCharacters(c: char, rest: string, lookup: Lookup)
    ensures Value("", lookup) == Expanded("")
    ensures c != '$' ==> Value([c] + rest, lookup) == Then([c], Value(rest, lookup))
    ensures Value("$$" + rest, lookup) == Then("$", Value(rest, lookup))
    ensures |rest| == 0 || (rest[0] != '$' && rest[0] != '{') ==>
              Value("$" + rest, lookup) == Then("$", Value(rest, lookup))
  {
    if c != '$' { ValueCons([c] + rest, Plain(c), rest, lookup); }
    ValueCons("$$" + rest, Escape, rest, lookup);
    if |rest| == 0 || (rest[0] != '$' && rest[0] != '{') { ValueCons("$" + rest, BareDollar, rest, lookup); }
  }

  lemma BracesAt(inner: string, rest: string)
    requires '}' !in inner
    ensures var s := "${" + inner + "}" + rest;
            FirstToken(s) == if IsName(inner) then Reference(inner) else Malformed(inner)
  {
    var s := "${" + inner + "}" + rest;
    var end := 2 + |inner|;
    assert s[0..] == s && s[2..end] == inner;
    assert forall j :: 2 <= j < end ==> s[j] == inner[j - 2];
    BracedToken(s, 0, end);
  }

  lemma NameIsPlain(name: string)
    ensures IsName(name) <==> PlainName(name)
    ensures IsName(name) ==> '}' !in name
  {
    if |name| > 0 {
      NameTailsAll(name[1..]);
      assert forall i :: 1 <= i < |name| ==> name[i] == name[1..][i - 1];
    }
  }

  /** A name in braces stands for what the environment says, and for nothing when it is unset. */
  lemma ValueOfReference(name: string, rest: string, lookup: Lookup)
    requires PlainName(name)
    ensures Value("${" + name + "}" + rest, lookup)
         == match lookup(name)
            case None => MissingName(name)
            case Some(text) => Then(text, Value(rest, lookup))
  {
    NameIsPlain(name);
    BracesAt(name, rest);
    ValueCons("${" + name + "}" + rest, Reference(name), rest, lookup);
  }

  /** Braces around anything else are copied, and so is everything after braces never closed. */
  lemma ValueOfBraces(inner: string, rest: string, lookup: Lookup)
    requires '}' !in inner
    ensures !PlainName(inner) ==>
              Value("${" + inner + "}" + rest, lookup) == Then("${" + inner + "}", Value(rest, lookup))
    ensures Value("${" + inner, lookup) == Expanded("${" + inner)
  {
    NameIsPlain(inner);
    if !IsName(inner) {
      BracesAt(inner, rest);
      ValueCons("${" + inner + "}" + rest, Malformed(inner), rest, lookup);
    }
    var s := "${" + inner;
    assert s[0..] == s && s[2..] == inner;
    IndexOfFacts(inner, '}');
    UnclosedToken(s, 0);
    assert s + "" == s;
    ValueCons(s, Unclosed(inner), "", lookup);
  }

  // ---------- escaping ----------

  function Escaped(s: string): string {
    if |s| == 0 then "" else (if s[0] == '$' then "$$" else [s[0]]) + Escaped(s[1..])
  }

  /** Doubling every dollar and expanding gives the original back, in every environment. */
  lemma {:induction false} EscapeRoundTrip(s: string, lookup: Lookup)
    ensures Expand(Tokenize(Escaped(s)), lookup) == Expanded(s)
  {
    if |s| > 0 {
      EscapeRoundTrip(s[1..], lookup);
      var e := Escaped(s);
      assert e[Width(FirstToken(e))..] == Escaped(s[1..]);
      assert Tokenize(e)[1..] == Tokenize(Escaped(s[1..]));
      assert s == [s[0]] + s[1..];
    }
  }

  // ---------- the scanner ----------

  /** A dollar and a brace that is never closed. */
  lemma UnclosedToken(value: string, i: nat)
    requires i + 2 <= |value| && value[i] == '$' && value[i + 1] == '{'
    requires IndexOf(value[i + 2..], '}') == |value| - (i + 2)
    ensures FirstToken(value[i..]) == Unclosed(value[i + 2..]) && value[i..] == "${" + value[i + 2..]
  {
    assert value[i..][2..] == value[i + 2..];
  }

  lemma ShortToken(value: string, i: nat)
    requires i < |value|
    ensures value[i] != '$' ==> FirstToken(value[i..]) == Plain(value[i])
    ensures value[i] == '$' && i + 1 < |value| && value[i + 1] == '$' ==> FirstToken(value[i..]) == Escape
    ensures value[i] == '$' && (i + 1 >= |value| || (value[i + 1] != '$' && value[i + 1] != '{')) ==>
              FirstToken(value[i..]) == BareDollar
  {
    var rest := value[i..];
    assert rest[0] == value[i];
    assert i + 1 < |value| ==> rest[1] == value[i + 1];
  }

  /** The scanner's step at position i: what it appends and where it goes on. */
  method ExpandAt(value: string, i: nat, lookup: Lookup) returns (piece: string, next: nat, unset: Option<string>)
    requires i < |value|
    ensures unset == None ==> Meaning(FirstToken(value[i..]), lookup) == Some(piece)
    ensures next == i + Width(FirstToken(value[i..]))
    ensures unset.Some? ==> FirstToken(value[i..]) == Reference(unset.value) && lookup(unset.value) == None
  {
    ShortToken(value, i);
    if value[i] != '$' {
      return [value[i]], i + 1, None;
    }
    if i + 1 < |value| && value[i + 1] == '$' {
      return "$", i + 2, None;
    }
    if i + 1 >= |value| || value[i + 1] != '{' {
      return "$", i + 1, None;
    }
    var endOffset := IndexOf(value[i + 2..], '}');
    if endOffset == |value| - (i + 2) {
      UnclosedToken(value, i);
      return value[i..], |value|, None;
    }
    var end := i + 2 + endOffset;
    var name := value[i + 2..end];
    IndexOfFacts(value[i + 2..], '}');
    BracedToken(value, i, end);
    var valid := ValidEnvironmentName(name);
    if !valid {
      return value[i..end + 1], end + 1, None;
    }
    var replacement := lookup(name);
    if replacement == None {
      return "", end + 1, Some(name);
    }
    return replacement.value, end + 1, None;
  }

  /** The tokens before position i are done. */
  ghost predicate Scanned(value: string, i: nat, done: seq<Token>) {
    i <= |value| && Tokenize(value) == done + Tokenize(value[i..])
  }

  lemma TokenizeFirst(s: string, w: nat)
    requires |s| > 0 && w == Width(FirstToken(s))
    ensures Tokenize(s) == [FirstToken(s)] + Tokenize(s[w..])
  {
  }

  lemma NextToken(value: string, i: nat, done: seq<Token>) returns (t: Token, later: seq<Token>)
    requires i < |value| && Scanned(value, i, done)
    ensures t == FirstToken(value[i..]) && i + Width(t) <= |value| && later == Tokenize(value[i + Width(t)..])
    ensures Tokenize(value) == done + ([t] + later)
  {
    t := FirstToken(value[i..]);
    TokenizeFirst(value[i..], Width(t));
    DropTwice(value, i, Width(t));
    later := Tokenize(value[i + Width(t)..]);
  }

  lemma ExtendExpansion(done: seq<Token>, t: Token, text: string, piece: string, lookup: Lookup)
    requires Expand(done, lookup) == Expanded(text) && Meaning(t, lookup) == Some(piece)
    ensures Expand(done + [t], lookup) == Expanded(text + piece)
  {
    ExpandConcat(done, [t], lookup);
  }

  lemma ScanOn(value: string, i: nat, done: seq<Token>) returns (t: Token)
    requires i < |value| && Scanned(value, i, done)
    ensures t == FirstToken(value[i..]) && Scanned(value, i + Width(t), done + [t])
  {
    var later;
    t, later := NextToken(value, i, done);
    ShiftBracket(done, t, later);
  }

  lemma ScanStops(value: string, i: nat, done: seq<Token>, text: string, name: string, lookup: Lookup)
    requires i < |value| && Scanned(value, i, done) && Expand(done, lookup) == Expanded(text)
    requires FirstToken(value[i..]) == Reference(name) && lookup(name) == None
    ensures Expand(Tokenize(value), lookup) == MissingName(name) && IsName(name)
  {
    var t, later := NextToken(value, i, done);
    ExpandConcat(done, [t] + later, lookup);
    TokensAreWellFormed(value);
    assert t in Tokenize(value);
  }

  lemma ScanBegins(value: string)
    ensures Scanned(value, 0, [])
  {
    assert value[0..] == value;
    assert [] + Tokenize(value) == Tokenize(value);
  }

  lemma ScanEnds(value: string, done: seq<Token>)
    requires Scanned(value, |value|, done)
    ensures Tokenize(value) == done
  {
    assert |value[|value|..]| == 0;
    assert done + [] == done;
  }

  method Scan(value: string, lookup: Lookup) returns (expanded: string, unset: Option<string>)
    ensures unset == None ==> Expand(Tokenize(value), lookup) == Expanded(expanded)
    ensures unset.Some? ==> Expand(Tokenize(value), lookup) == MissingName(unset.value) && IsName(unset.value)
  {
    expanded := "";
    var i := 0;
    ghost var done: seq<Token> := [];
    ScanBegins(value);
    while i < |value|
      invariant Scanned(value, i, done) && Expand(done, lookup) == Expanded(expanded)
      decreases |value| - i
    {
      var piece, next;
      piece, next, unset := ExpandAt(value, i, lookup);
      if unset.Some? {
        ScanStops(value, i, done, expanded, unset.value, lookup);
        return;
      }
      ghost var t := ScanOn(value, i, done);
      ExtendExpansion(done, t, expanded, piece, lookup);
      done := done + [t];
      expanded := expanded + piece;
      i := next;
    }
    ScanEnds(value, done);
    return expanded, None;
  }

  /** One pass from left to right; the result is the expansion of the input's own tokens, or no
      text and the first unset name. */
  method ExpandValue(value: string, lookup: Lookup) returns (expanded: string, missing: string)
    ensures missing == "" ==> Expand(Tokenize(value), lookup) == Expanded(expanded)
    ensures missing != "" ==> Expand(Tokenize(value), lookup) == MissingName(missing) && expanded == ""
  {
    var text, unset := Scan(value, lookup);
    if unset.Some? {
      return "", unset.value;
    }
    return text, "";
  }

  class Field {
    var value: string

    constructor (value: string)
      ensures this.value == value
    {
      this.value := value;
    }
  }

  /** Overwrites a configuration field through its pointer, or leaves it alone and reports the
      first unset name. */
  method ExpandField(field: Field, lookup: Lookup) returns (missing: string)
    modifies field
    ensures match Expand(Tokenize(old(field.value)), lookup)
            case MissingName(n) => missing == n != "" && field.value == old(field.value)
            case Expanded(text) => missing == "" && field.value == text
  {
    var expanded: string;
    expanded, missing := ExpandValue(field.value, lookup);
    if missing == "" {
      field.value := expanded;
    }
  }
}
