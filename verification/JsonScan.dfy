/** `_extract_first_json_object`: the scan for a balanced object, against the grammar of JSON texts. */
module JsonScan {
  import opened JsonText

  datatype State = State(depth: int, inString: bool, escape: bool)

  /** How a scan of some text ends: still open, or closed by the character at a position. */
  datatype Scan = Open(state: State) | Closed(at: nat)

  function Outside(depth: int): State {
    State(depth, false, false)
  }

  function Within(depth: int): State {
    State(depth, true, false)
  }

  function Step(s: State, c: char): State {
    if s.inString then
      if s.escape then s.(escape := false)
      else if c == '\\' then s.(escape := true)
      else if c == '"' then s.(inString := false)
      else s
    else if c == '"' then s.(inString := true)
    else if c == '{' then s.(depth := s.depth + 1)
    else if c == '}' then s.(depth := s.depth - 1)
    else s
  }

  /** The character closes the object: a brace outside strings that brings the depth to zero. */
  predicate Closes(s: State, c: char) {
    !s.inString && c == '}' && s.depth == 1
  }

  function Later(scan: Scan, n: nat): Scan {
    match scan
    case Open(_) => scan
    case Closed(at) => Closed(at + n)
  }

  function Run(s: State, text: string): Scan
    decreases |text|
  {
    if text == "" then Open(s)
    else if Closes(s, text[0]) then Closed(0)
    else Later(Run(Step(s, text[0]), text[1..]), 1)
  }

  lemma {:induction false} RunBounds(s: State, text: string)
    ensures Run(s, text).Closed? ==> Run(s, text).at < |text|
    decreases |text|
  {
    if text != "" {
      RunBounds(Step(s, text[0]), text[1..]);
    }
  }

  /** `text.find("{")`: the length when there is none. */
  function FindBrace(text: string): (i: nat)
    ensures i <= |text| && (i < |text| ==> text[i] == '{') && forall j | 0 <= j < i :: text[j] != '{'
  {
    if text == "" || text[0] == '{' then 0 else 1 + FindBrace(text[1..])
  }

  function Extract(text: string): string {
    var start := FindBrace(text);
    if start == |text| then text
    else
      match Run(Outside(0), text[start..])
      case Open(_) => text[start..]
      case Closed(at) => RunBounds(Outside(0), text[start..]); text[start..start + at + 1]
  }

  method ExtractFirstJsonObject(text: string) returns (block: string)
    ensures block == Extract(text)
  {
    var start := FindBrace(text);
    if start == |text| {
      return text;
    }
    var depth, inString, escape := 0, false, false;
    RunBounds(Outside(0), text[start..]);
    for i := start to |text|
      invariant Run(Outside(0), text[start..]) == Later(Run(State(depth, inString, escape), text[i..]), i - start)
    {
      var c := text[i];
      assert text[i..][0] == c && text[i..][1..] == text[i + 1..];
      if inString {
        if escape {
          escape := false;
        } else if c == '\\' {
          escape := true;
        } else if c == '"' {
          inString := false;
        }
      } else if c == '"' {
        inString := true;
      } else if c == '{' {
        depth := depth + 1;
      } else if c == '}' {
        depth := depth - 1;
        if depth == 0 {
          return text[start..i + 1];
        }
      }
    }
    assert text[|text|..] == "";
    block := text[start..];
  }

  // ---- Scanning a JSON text ---------------------------------------------------------------------

  lemma {:induction false} RunConcat(s: State, a: string, b: string)
    ensures Run(s, a + b) == match Run(s, a) case Open(s') => Later(Run(s', b), |a|) case Closed(at) => Closed(at)
    decreases |a|
  {
    if a == "" {
      assert a + b == b;
    } else {
      assert (a + b)[1..] == a[1..] + b;
      RunConcat(Step(s, a[0]), a[1..], b);
    }
  }

  /** Scanning `a` goes from one open state to another. */
  predicate Passes(s: State, a: string, s': State) {
    Run(s, a) == Open(s')
  }

  lemma PassesOn(s: State, a: string, s': State, b: string, s'': State)
    requires Passes(s, a, s') && Passes(s', b, s'')
    ensures Passes(s, a + b, s'')
  {
    RunConcat(s, a, b);
  }

  /** Text without quotes and braces is passed over. */
  lemma {:induction false} PassesQuiet(d: int, text: string)
    requires forall i | 0 <= i < |text| :: text[i] !in {'"', '{', '}'}
    ensures Passes(Outside(d), text, Outside(d))
  {
    if text != "" {
      PassesQuiet(d, text[1..]);
    }
  }

  lemma PassesPiece(d: int, p: Piece)
    requires ValidPiece(p)
    ensures Passes(Within(d), PrintPiece(p), Within(d))
  {
    match p {
      case Plain(c) =>
      case Escape(c) =>
        assert ['\\', c][1..] == [c];
        assert Run(Step(Within(d), '\\'), [c]) == Open(Within(d));
      case Unicode(hex) =>
        assert hex == [hex[0], hex[1], hex[2], hex[3]];
        PassesHex(d, hex);
        assert ['\\', 'u'][1..] == ['u'];
        assert Run(Step(Within(d), '\\'), ['u']) == Open(Within(d));
        PassesOn(Within(d), ['\\', 'u'], Within(d), hex, Within(d));
    }
  }

  lemma {:induction false} PassesHex(d: int, hex: string)
    requires forall i | 0 <= i < |hex| :: IsHex(hex[i])
    ensures Passes(Within(d), hex, Within(d))
  {
    if hex != "" {
      PassesHex(d, hex[1..]);
    }
  }

  lemma {:induction false} PassesBody(d: int, body: seq<Piece>)
    requires ValidBody(body)
    ensures Passes(Within(d), PrintBody(body), Within(d))
  {
    if body != [] {
      PassesPiece(d, body[0]);
      PassesBody(d, body[1..]);
      PassesOn(Within(d), PrintPiece(body[0]), Within(d), PrintBody(body[1..]), Within(d));
    }
  }

  lemma PassesString(d: int, body: seq<Piece>)
    requires ValidBody(body)
    ensures Passes(Outside(d), PrintString(body), Outside(d))
  {
    PassesBody(d, body);
    assert Passes(Within(d), "\"", Outside(d));
    PassesOn(Within(d), PrintBody(body), Within(d), "\"", Outside(d));
    assert Passes(Outside(d), "\"", Within(d));
    PassesOn(Outside(d), "\"", Within(d), PrintBody(body) + "\"", Outside(d));
  }

  /** Inside an object, scanning any value brings the scan back to where it was. */
  lemma {:induction false} PassesValue(d: int, v: Json)
    requires d >= 1 && Valid(v)
    ensures Passes(Outside(d), Print(v), Outside(d))
    decreases v, 0
  {
    match v {
      case Scalar(text) => PassesQuiet(d, text);
      case Str(body) => PassesString(d, body);
      case Arr(items, extra, tail) =>
        PassesItems(d, items);
        PassesQuiet(d, "[");
        PassesQuiet(d, Comma(extra && items.Item?));
        PassesQuiet(d, tail + "]");
        PassesOn(Outside(d), Comma(extra && items.Item?), Outside(d), tail + "]", Outside(d));
        PassesOn(Outside(d), PrintItems(items), Outside(d), Comma(extra && items.Item?) + (tail + "]"), Outside(d));
        PassesOn(Outside(d), "[", Outside(d), PrintItems(items) + (Comma(extra && items.Item?) + (tail + "]")),
          Outside(d));
      case Obj(members, extra, tail) =>
        PassesInner(d + 1, v);
        assert Passes(Outside(d + 1), "}", Outside(d));
        PassesOn(Outside(d + 1), tail, Outside(d + 1), "}", Outside(d));
        PassesOn(Outside(d + 1), Comma(extra && members.Member?), Outside(d + 1), tail + "}", Outside(d));
        PassesOn(Outside(d + 1), PrintMembers(members), Outside(d + 1), Comma(extra && members.Member?) + (tail + "}"),
          Outside(d));
        assert Passes(Outside(d), "{", Outside(d + 1));
        PassesOn(Outside(d), "{", Outside(d + 1),
          PrintMembers(members) + (Comma(extra && members.Member?) + (tail + "}")), Outside(d));
    }
  }

  /** The parts of an object between its braces. */
  lemma {:induction false} PassesInner(d: int, v: Json)
    requires d >= 1 && v.Obj? && Valid(v)
    ensures Passes(Outside(d), PrintMembers(v.members), Outside(d))
    ensures Passes(Outside(d), Comma(v.extra && v.members.Member?), Outside(d))
      && Passes(Outside(d), v.tail, Outside(d))
    decreases v.members, 1
  {
    PassesMembers(d, v.members);
    PassesQuiet(d, Comma(v.extra && v.members.Member?));
    PassesQuiet(d, v.tail);
  }

  lemma {:induction false} PassesItems(d: int, items: Items)
    requires d >= 1 && ValidItems(items)
    ensures Passes(Outside(d), PrintItems(items), Outside(d))
    decreases items, 0
  {
    match items {
      case NoItem =>
      case Item(before, value, after, rest) =>
        var o := Outside(d);
        PassesValue(d, value);
        PassesItems(d, rest);
        PassesQuiet(d, before);
        PassesQuiet(d, after);
        PassesQuiet(d, Comma(rest.Item?));
        PassesOn(o, Comma(rest.Item?), o, PrintItems(rest), o);
        PassesOn(o, after, o, Comma(rest.Item?) + PrintItems(rest), o);
        PassesOn(o, Print(value), o, after + (Comma(rest.Item?) + PrintItems(rest)), o);
        PassesOn(o, before, o, Print(value) + (after + (Comma(rest.Item?) + PrintItems(rest))), o);
    }
  }

  lemma {:induction false} PassesMembers(d: int, members: Members)
    requires d >= 1 && ValidMembers(members)
    ensures Passes(Outside(d), PrintMembers(members), Outside(d))
    decreases members, 0
  {
    match members {
      case NoMember =>
      case Member(before, key, mid, gap, value, after, rest) =>
        var o := Outside(d);
        PassesString(d, key);
        PassesValue(d, value);
        PassesMembers(d, rest);
        PassesQuiet(d, before);
        PassesQuiet(d, mid);
        PassesQuiet(d, ":");
        PassesQuiet(d, gap);
        PassesQuiet(d, after);
        PassesQuiet(d, Comma(rest.Member?));
        var t1 := Comma(rest.Member?) + PrintMembers(rest);
        PassesOn(o, Comma(rest.Member?), o, PrintMembers(rest), o);
        PassesOn(o, after, o, t1, o);
        PassesOn(o, Print(value), o, after + t1, o);
        PassesOn(o, gap, o, Print(value) + (after + t1), o);
        PassesOn(o, ":", o, gap + (Print(value) + (after + t1)), o);
        PassesOn(o, mid, o, ":" + (gap + (Print(value) + (after + t1))), o);
        PassesOn(o, PrintString(key), o, mid + (":" + (gap + (Print(value) + (after + t1)))), o);
        PassesOn(o, before, o, PrintString(key) + (mid + (":" + (gap + (Print(value) + (after + t1))))), o);
    }
  }

  /** Scanning an object from its first brace closes at its last. */
  lemma ObjectCloses(v: Json)
    requires v.Obj? && Valid(v)
    ensures Run(Outside(0), Print(v)) == Closed(|Print(v)| - 1)
  {
    var o := Outside(1);
    var comma := Comma(v.extra && v.members.Member?);
    PassesInner(1, v);
    assert Run(o, "}") == Closed(0);
    RunConcat(o, v.tail, "}");
    RunConcat(o, comma, v.tail + "}");
    RunConcat(o, PrintMembers(v.members), comma + (v.tail + "}"));
    assert Passes(Outside(0), "{", o);
    RunConcat(Outside(0), "{", PrintMembers(v.members) + (comma + (v.tail + "}")));
  }

  /** From any text that holds a JSON object after a prefix without an opening brace, the scan takes just the object. */
  lemma ExtractsObject(prefix: string, v: Json, suffix: string)
    requires '{' !in prefix && v.Obj? && Valid(v)
    ensures Extract(prefix + Print(v) + suffix) == Print(v)
  {
    var text := prefix + Print(v) + suffix;
    assert Print(v)[0] == '{';
    hide Print, Valid, Run, FindBrace;
    assert text[|prefix|] == '{';
    assert forall j | 0 <= j < |prefix| :: text[j] == prefix[j];
    FirstBraceAt(text, |prefix|);
    assert text[|prefix|..] == Print(v) + suffix;
    ObjectCloses(v);
    RunConcat(Outside(0), Print(v), suffix);
  }

  /** An object whose text breaks off is taken as far as it goes. */
  lemma ExtractsCutObject(prefix: string, v: Json, k: nat)
    requires '{' !in prefix && v.Obj? && Valid(v) && 0 < k < |Print(v)|
    ensures Extract(prefix + Print(v)[..k]) == Print(v)[..k]
  {
    var cut := Print(v)[..k];
    var text := prefix + cut;
    assert cut[0] == '{';
    assert text[|prefix|] == '{';
    assert forall j | 0 <= j < |prefix| :: text[j] == prefix[j];
    FirstBraceAt(text, |prefix|);
    assert text[|prefix|..] == cut;
    ObjectCloses(v);
    assert Print(v) == cut + Print(v)[k..];
    RunConcat(Outside(0), cut, Print(v)[k..]);
    RunBounds(Outside(0), cut);
  }

  lemma FirstBraceAt(text: string, i: nat)
    requires i < |text| && text[i] == '{' && forall j | 0 <= j < i :: text[j] != '{'
    ensures FindBrace(text) == i
  {
  }
}
