/** `_repair_trailing_commas`: the substitution `,(\s*[}\]])` by `\1`, on printed JSON texts. */
module JsonRepair {
  import opened JsonText
  import opened Text
  import JsonScan

  function Blanks(text: string): (n: nat)
    ensures n <= |text| && (forall i | 0 <= i < n :: IsSpace(text[i])) && (n < |text| ==> !IsSpace(text[n]))
  {
    if text == "" || !IsSpace(text[0]) then 0 else 1 + Blanks(text[1..])
  }

  predicate IsCloser(c: char) {
    c == '}' || c == ']'
  }

  /** `re.sub`: matches are replaced from the left, and the search goes on behind each match. */
  function Repair(text: string): string
    decreases |text|
  {
    if text == "" then ""
    else
      var rest := text[1..];
      var n := Blanks(rest);
      if text[0] == ',' && n < |rest| && IsCloser(rest[n]) then rest[..n + 1] + Repair(rest[n + 1..])
      else [text[0]] + Repair(rest)
  }

  // ---- A simpler form, by single characters -------------------------------------------------------

  /** Blanks and then a closer come next; `beyond` tells it of what follows the text. */
  predicate ClosesNext(text: string, beyond: bool)
    decreases |text|
  {
    if text == "" then beyond
    else if IsSpace(text[0]) then ClosesNext(text[1..], beyond)
    else IsCloser(text[0])
  }

  /** The text without the commas after which a closer comes next. */
  function Drop(text: string, beyond: bool): string
    decreases |text|
  {
    if text == "" then ""
    else if text[0] == ',' && ClosesNext(text[1..], beyond) then Drop(text[1..], beyond)
    else [text[0]] + Drop(text[1..], beyond)
  }

  lemma {:induction false} ClosesNextConcat(a: string, b: string, beyond: bool)
    ensures ClosesNext(a + b, beyond) == ClosesNext(a, ClosesNext(b, beyond))
    decreases |a|
  {
    if a == "" {
      assert a + b == b;
    } else {
      assert (a + b)[1..] == a[1..] + b;
      ClosesNextConcat(a[1..], b, beyond);
    }
  }

  lemma {:induction false} DropConcat(a: string, b: string, beyond: bool)
    ensures Drop(a + b, beyond) == Drop(a, ClosesNext(b, beyond)) + Drop(b, beyond)
    decreases |a|
  {
    if a == "" {
      assert a + b == b;
    } else {
      assert (a + b)[1..] == a[1..] + b;
      ClosesNextConcat(a[1..], b, beyond);
      DropConcat(a[1..], b, beyond);
    }
  }

  lemma {:induction false} DropKeeps(text: string, beyond: bool)
    requires ',' !in text
    ensures Drop(text, beyond) == text
    decreases |text|
  {
    if text != "" {
      DropKeeps(text[1..], beyond);
    }
  }

  lemma {:induction false} ClosesAfterBlanks(text: string)
    ensures ClosesNext(text, false) <==> Blanks(text) < |text| && IsCloser(text[Blanks(text)])
    decreases |text|
  {
    if text != "" && IsSpace(text[0]) {
      ClosesAfterBlanks(text[1..]);
    }
  }

  /** The substitution drops exactly the commas after which a closer comes next. */
  lemma {:induction false} RepairIsDrop(text: string)
    ensures Repair(text) == Drop(text, false)
    decreases |text|
  {
    if text != "" {
      var rest := text[1..];
      var n := Blanks(rest);
      ClosesAfterBlanks(rest);
      if text[0] == ',' && n < |rest| && IsCloser(rest[n]) {
        var kept := rest[..n + 1];
        assert rest == kept + rest[n + 1..];
        assert ',' !in kept;
        DropConcat(kept, rest[n + 1..], false);
        DropKeeps(kept, ClosesNext(rest[n + 1..], false));
        RepairIsDrop(rest[n + 1..]);
      } else {
        RepairIsDrop(rest);
      }
    }
  }

  // ---- On printed JSON --------------------------------------------------------------------------------

  /** The same value without the extra commas. */
  function Plainly(v: Json): Json {
    match v
    case Arr(items, _, tail) => Arr(PlainItems(items), false, tail)
    case Obj(members, _, tail) => Obj(PlainMembers(members), false, tail)
    case _ => v
  }

  function PlainItems(items: Items): Items {
    match items
    case NoItem => NoItem
    case Item(before, value, after, rest) => Item(before, Plainly(value), after, PlainItems(rest))
  }

  function PlainMembers(members: Members): Members {
    match members
    case NoMember => NoMember
    case Member(before, key, mid, gap, value, after, rest) => Member(before, key, mid, gap, Plainly(value), after,
      PlainMembers(rest))
  }

  /** The text holds a comma, blanks and a closer in a row. */
  predicate Baited(text: string) {
    exists i | 0 <= i < |text| :: text[i] == ',' && ClosesNext(text[i + 1..], false)
  }

  /** No string body, of a value or a key, holds such a row. */
  predicate Clean(v: Json) {
    match v
    case Scalar(_) => true
    case Str(body) => !Baited(PrintBody(body))
    case Arr(items, _, _) => CleanItems(items)
    case Obj(members, _, _) => CleanMembers(members)
  }

  predicate CleanItems(items: Items) {
    items.Item? ==> Clean(items.value) && CleanItems(items.rest)
  }

  predicate CleanMembers(members: Members) {
    members.Member? ==> !Baited(PrintBody(members.key)) && Clean(members.value) && CleanMembers(members.rest)
  }

  /** `got` is the wanted text, or, where something unwanted was dropped as well, shorter than it. */
  predicate Fixed(got: string, want: string, clean: bool) {
    if clean then got == want else |got| < |want|
  }

  lemma DropJoin(a: string, b: string, beyond: bool, wantA: string, wantB: string, cleanA: bool, cleanB: bool)
    requires Fixed(Drop(a, ClosesNext(b, beyond)), wantA, cleanA) && Fixed(Drop(b, beyond), wantB, cleanB)
    ensures Fixed(Drop(a + b, beyond), wantA + wantB, cleanA && cleanB)
  {
    DropConcat(a, b, beyond);
  }

  /** A part without commas in front stays as it is. */
  lemma DropFront(a: string, b: string, beyond: bool, wantB: string, cleanB: bool)
    requires ',' !in a && Fixed(Drop(b, beyond), wantB, cleanB)
    ensures Fixed(Drop(a + b, beyond), a + wantB, cleanB)
  {
    DropKeeps(a, ClosesNext(b, beyond));
    DropJoin(a, b, beyond, a, wantB, true, cleanB);
  }

  lemma {:induction false} DropBaited(text: string)
    ensures Fixed(Drop(text, false), text, !Baited(text))
    decreases |text|
  {
    if text != "" {
      var rest := text[1..];
      DropBaited(rest);
      assert Baited(text) <==> (text[0] == ',' && ClosesNext(rest, false)) || Baited(rest) by {
        if i :| 0 <= i < |rest| && rest[i] == ',' && ClosesNext(rest[i + 1..], false) {
          assert text[i + 1] == ',' && text[i + 1 + 1..] == rest[i + 1..];
        }
        if i :| 1 <= i < |text| && text[i] == ',' && ClosesNext(text[i + 1..], false) {
          assert rest[i - 1] == ',' && rest[i - 1 + 1..] == text[i + 1..];
        }
      }
    }
  }

  lemma WsIsBlank(s: string)
    requires IsWs(s)
    ensures ',' !in s && forall i | 0 <= i < |s| :: IsSpace(s[i])
  {
  }

  lemma {:induction false} ClosesNextBlank(s: string, beyond: bool)
    requires forall i | 0 <= i < |s| :: IsSpace(s[i])
    ensures ClosesNext(s, beyond) == beyond
    decreases |s|
  {
    if s != "" {
      ClosesNextBlank(s[1..], beyond);
    }
  }

  lemma DropString(body: seq<Piece>, beyond: bool)
    ensures Fixed(Drop(PrintString(body), beyond), PrintString(body), !Baited(PrintBody(body)))
    ensures !ClosesNext(PrintString(body), beyond)
  {
    DropBaited(PrintBody(body));
    assert !ClosesNext("\"", beyond) && Drop("\"", beyond) == "\"";
    DropJoin(PrintBody(body), "\"", beyond, PrintBody(body), "\"", !Baited(PrintBody(body)), true);
    DropFront("\"", PrintBody(body) + "\"", beyond, PrintBody(body) + "\"", !Baited(PrintBody(body)));
  }

  /** The end of a container: the extra comma goes, the whitespace and the closer stay. */
  lemma DropEnd(comma: bool, tail: string, closer: char, beyond: bool)
    requires IsWs(tail) && IsCloser(closer)
    ensures Drop(Comma(comma) + (tail + [closer]), beyond) == tail + [closer]
  {
    WsIsBlank(tail);
    ClosesNextConcat(tail, [closer], beyond);
    ClosesNextBlank(tail, ClosesNext([closer], beyond));
    DropKeeps(tail + [closer], beyond);
    DropConcat(Comma(comma), tail + [closer], beyond);
    assert ClosesNext(tail + [closer], beyond);
    assert Drop(Comma(comma), true) == "";
  }

  lemma {:induction false} DropContainer(opener: char, inner: string, plain: string, clean: bool, comma: bool,
      tail: string, closer: char, beyond: bool)
    requires IsWs(tail) && IsCloser(closer) && opener in {'[', '{'}
    requires Fixed(Drop(inner, ClosesNext(Comma(comma) + (tail + [closer]), beyond)), plain, clean)
    ensures Fixed(Drop([opener] + (inner + (Comma(comma) + (tail + [closer]))), beyond),
      [opener] + (plain + (Comma(false) + (tail + [closer]))), clean)
    ensures !ClosesNext([opener] + (inner + (Comma(comma) + (tail + [closer]))), beyond)
  {
    var end := Comma(comma) + (tail + [closer]);
    DropEnd(comma, tail, closer, beyond);
    assert Comma(false) + (tail + [closer]) == tail + [closer];
    DropJoin(inner, end, beyond, plain, tail + [closer], clean, true);
    DropFront([opener], inner + end, beyond, plain + (tail + [closer]), clean);
  }

  /** Repairing a printed value gives the plain print, unless a string held a row that looks like a trailing comma: then
      it loses text. */
  lemma {:induction false} DropValue(v: Json, beyond: bool)
    requires Valid(v)
    ensures Fixed(Drop(Print(v), beyond), Print(Plainly(v)), Clean(v))
    ensures !ClosesNext(Print(v), beyond)
    decreases v, 0
  {
    match v {
      case Scalar(text) =>
        DropKeeps(text, beyond);
      case Str(body) =>
        DropString(body, beyond);
      case Arr(items, extra, tail) =>
        DropItems(items, ClosesNext(Comma(extra && items.Item?) + (tail + "]"), beyond));
        DropContainer('[', PrintItems(items), PrintItems(PlainItems(items)), CleanItems(items),
          extra && items.Item?, tail, ']', beyond);
      case Obj(members, extra, tail) =>
        DropMembers(members, ClosesNext(Comma(extra && members.Member?) + (tail + "}"), beyond));
        DropContainer('{', PrintMembers(members), PrintMembers(PlainMembers(members)), CleanMembers(members),
          extra && members.Member?, tail, '}', beyond);
    }
  }

  /** A separator stays: what comes after it is no closer. */
  lemma DropSeparated(there: bool, rest: string, beyond: bool, want: string, clean: bool)
    requires Fixed(Drop(rest, beyond), want, clean) && (there ==> !ClosesNext(rest, beyond))
    ensures Fixed(Drop(Comma(there) + rest, beyond), Comma(there) + want, clean)
  {
    assert Drop(Comma(there), ClosesNext(rest, beyond)) == Comma(there);
    DropJoin(Comma(there), rest, beyond, Comma(there), want, true, clean);
  }

  /** A value between whitespace does not begin with a closer. */
  lemma NoCloserFirst(before: string, first: string, after: string, beyond: bool)
    requires IsWs(before) && !ClosesNext(first, ClosesNext(after, beyond))
    ensures !ClosesNext(before + (first + after), beyond)
  {
    WsIsBlank(before);
    ClosesNextConcat(first, after, beyond);
    ClosesNextConcat(before, first + after, beyond);
    ClosesNextBlank(before, ClosesNext(first + after, beyond));
  }

  lemma {:induction false} DropItems(items: Items, beyond: bool)
    requires ValidItems(items)
    ensures Fixed(Drop(PrintItems(items), beyond), PrintItems(PlainItems(items)), CleanItems(items))
    ensures items.Item? ==> !ClosesNext(PrintItems(items), beyond)
    decreases items, 0
  {
    match items {
      case NoItem =>
      case Item(before, value, after, rest) =>
        var t, p := Comma(rest.Item?) + PrintItems(rest), Comma(rest.Item?) + PrintItems(PlainItems(rest));
        WsIsBlank(before);
        WsIsBlank(after);
        DropItems(rest, beyond);
        DropSeparated(rest.Item?, PrintItems(rest), beyond, PrintItems(PlainItems(rest)), CleanItems(rest));
        DropFront(after, t, beyond, p, CleanItems(rest));
        DropValue(value, ClosesNext(after + t, beyond));
        DropJoin(Print(value), after + t, beyond, Print(Plainly(value)), after + p, Clean(value), CleanItems(rest));
        DropFront(before, Print(value) + (after + t), beyond, Print(Plainly(value)) + (after + p),
          Clean(value) && CleanItems(rest));
        NoCloserFirst(before, Print(value), after + t, beyond);
        assert PlainItems(rest).Item? == rest.Item?;
    }
  }

  lemma {:induction false} DropMembers(members: Members, beyond: bool)
    requires ValidMembers(members)
    ensures Fixed(Drop(PrintMembers(members), beyond), PrintMembers(PlainMembers(members)), CleanMembers(members))
    ensures members.Member? ==> !ClosesNext(PrintMembers(members), beyond)
    decreases members, 0
  {
    match members {
      case NoMember =>
      case Member(before, key, mid, gap, value, after, rest) =>
        var t, p := Comma(rest.Member?) + PrintMembers(rest), Comma(rest.Member?) + PrintMembers(PlainMembers(rest));
        var c := Clean(value) && CleanMembers(rest);
        WsIsBlank(before);
        WsIsBlank(after);
        DropMembers(rest, beyond);
        DropSeparated(rest.Member?, PrintMembers(rest), beyond, PrintMembers(PlainMembers(rest)), CleanMembers(rest));
        DropFront(after, t, beyond, p, CleanMembers(rest));
        DropValue(value, ClosesNext(after + t, beyond));
        DropJoin(Print(value), after + t, beyond, Print(Plainly(value)), after + p, Clean(value), CleanMembers(rest));
        var u, q := Print(value) + (after + t), Print(Plainly(value)) + (after + p);
        DropAfterKey(mid, gap, u, beyond, q, c);
        var w, s := mid + (":" + (gap + u)), mid + (":" + (gap + q));
        DropString(key, ClosesNext(w, beyond));
        DropJoin(PrintString(key), w, beyond, PrintString(key), s, !Baited(PrintBody(key)), c);
        DropFront(before, PrintString(key) + w, beyond, PrintString(key) + s, CleanMembers(members));
        NoCloserFirst(before, PrintString(key), w, beyond);
        assert PlainMembers(rest).Member? == rest.Member?;
    }
  }

  lemma DropAfterKey(mid: string, gap: string, u: string, beyond: bool, q: string, clean: bool)
    requires IsWs(mid) && IsWs(gap) && Fixed(Drop(u, beyond), q, clean)
    ensures Fixed(Drop(mid + (":" + (gap + u)), beyond), mid + (":" + (gap + q)), clean)
  {
    WsIsBlank(mid);
    WsIsBlank(gap);
    DropFront(gap, u, beyond, q, clean);
    DropFront(":", gap + u, beyond, gap + q, clean);
    DropFront(mid, ":" + (gap + u), beyond, ":" + (gap + q), clean);
  }

  // ---- The main results -----------------------------------------------------------------------------------

  /** Any JSON text printed with an extra comma in any of its non-empty containers is repaired to the print without
      them, exactly when no string in it holds a comma, blanks and a closer in a row; then a print without extra commas
      is left alone. */
  lemma RepairsIff(v: Json)
    requires Valid(v)
    ensures Repair(Print(v)) == Print(Plainly(v)) <==> Clean(v)
  {
    RepairIsDrop(Print(v));
    DropValue(v, false);
  }

  /** The two steps of the parser together, on a reply with prose around the object. */
  lemma ExtractedAndRepaired(prefix: string, v: Json, suffix: string)
    requires '{' !in prefix && v.Obj? && Valid(v) && Clean(v)
    ensures Repair(JsonScan.Extract(prefix + Print(v) + suffix)) == Print(Plainly(v))
  {
    JsonScan.ExtractsObject(prefix, v, suffix);
    RepairsIff(v);
  }
}
