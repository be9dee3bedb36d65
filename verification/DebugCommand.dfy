/**
 The debug server's command format: printing a command as JSON and the
 hand-written extractors that read it back.
 */
module DebugCommand {

  datatype Command = Command(cmd: string, args: seq<string>)

  // ── Searching ──────────────────────────────────────────────────────────

  /** The first position of a character, or the length of the string. */
  function IndexOf(s: string, c: char): (i: nat)
    ensures i <= |s| && (i < |s| ==> s[i] == c) && forall k :: 0 <= k < i ==> s[k] != c
  {
    if s == "" || s[0] == c then 0 else 1 + IndexOf(s[1..], c)
  }

  lemma IndexOfIs(s: string, c: char, i: nat)
    requires i <= |s| && (i < |s| ==> s[i] == c) && forall k :: 0 <= k < i ==> s[k] != c
    ensures IndexOf(s, c) == i
  {
  }

  predicate MatchAt(s: string, pattern: string, i: nat) {
    i + |pattern| <= |s| && s[i..i + |pattern|] == pattern
  }

  /** The first match at or after a position; a position past the end when there is none. */
  function Find(s: string, pattern: string, from: nat): (i: nat)
    ensures i <= |s| ==> from <= i && MatchAt(s, pattern, i) && forall k :: from <= k < i ==> !MatchAt(s, pattern, k)
    ensures i > |s| ==> forall k :: from <= k ==> !MatchAt(s, pattern, k)
    decreases |s| - from
  {
    if from + |pattern| > |s| then |s| + 1
    else if MatchAt(s, pattern, from) then from
    else Find(s, pattern, from + 1)
  }

  lemma FindIs(s: string, pattern: string, from: nat, i: nat)
    requires from <= i && MatchAt(s, pattern, i) && forall k :: from <= k < i ==> !MatchAt(s, pattern, k)
    ensures Find(s, pattern, from) == i
  {
  }

  function Quoted(s: string): string { "\"" + s + "\"" }

  // ── The extractors, as functions ───────────────────────────────────────

  predicate Blank(c: char) { c == ' ' || c == '\t' }

  function SkipBlanks(s: string): string {
    if s != "" && Blank(s[0]) then SkipBlanks(s[1..]) else s
  }

  /** What follows the first occurrence of a quoted key; nothing when the key is missing. */
  function AfterKey(json: string, key: string): string {
    var pos := Find(json, Quoted(key), 0);
    if pos > |json| then "" else json[pos + |Quoted(key)|..]
  }

  /** What follows the first occurrence of a character; nothing when there is none. */
  function After(s: string, c: char): string {
    if IndexOf(s, c) < |s| then s[IndexOf(s, c) + 1..] else ""
  }

  /** The string that follows a colon, after blanks. */
  function StringIn(s: string): string {
    var rest := SkipBlanks(s);
    if rest == "" || rest[0] != '"' || IndexOf(rest[1..], '"') == |rest| - 1 then ""
    else rest[1..][..IndexOf(rest[1..], '"')]
  }

  function StringValue(json: string, key: string): string {
    StringIn(After(AfterKey(json, key), ':'))
  }

  /** The texts between successive pairs of quotes; a last quote may be missing. */
  function Split(s: string): seq<string>
    decreases |s|
  {
    if IndexOf(s, '"') == |s| then []
    else
      var rest := After(s, '"');
      [rest[..IndexOf(rest, '"')]] + Split(After(rest, '"'))
  }

  /** The elements of the array that follows an opening bracket. */
  function ArrayIn(s: string): seq<string> {
    if IndexOf(s, ']') == |s| then [] else Split(s[..IndexOf(s, ']')])
  }

  function ArrayValue(json: string, key: string): seq<string> {
    ArrayIn(After(AfterKey(json, key), '['))
  }

  function Parsed(json: string): Command {
    Command(StringValue(json, "cmd"), ArrayValue(json, "args"))
  }

  // ── Printing, as functions ─────────────────────────────────────────────

  /** Each further argument, after a comma. */
  function Tail(args: seq<string>): string {
    if args == [] then "" else "," + Quoted(args[0]) + Tail(args[1..])
  }

  function List(args: seq<string>): string {
    if args == [] then "" else Quoted(args[0]) + Tail(args[1..])
  }

  const OPEN := "{\"cmd\":\""
  const MIDDLE := "\",\"args\":["

  function Json(c: Command): string {
    OPEN + c.cmd + MIDDLE + List(c.args) + "]}"
  }

  // ── The extractors and the printer ─────────────────────────────────────

  /** Moves behind the key, then behind a character; nothing is left when either is missing. */
  method Seek(json: string, key: string, c: char) returns (rest: string)
    ensures rest == After(AfterKey(json, key), c)
  {
    hide Find, IndexOf;
    var search := Quoted(key);
    var pos := Find(json, search, 0);
    if pos > |json| {
      return "";
    }
    rest := json[pos + |search|..];
    var at := IndexOf(rest, c);
    if at == |rest| {
      return "";
    }
    rest := rest[at + 1..];
  }

  method ExtractJsonString(json: string, key: string) returns (r: string)
    ensures r == StringValue(json, key)
  {
    hide AfterKey, IndexOf, After;
    var rest := Seek(json, key, ':');
    var p := 0;
    assert rest[0..] == rest;
    while p < |rest| && Blank(rest[p])
      invariant p <= |rest| && SkipBlanks(rest[p..]) == SkipBlanks(rest)
    {
      assert rest[p..][1..] == rest[p + 1..];
      p := p + 1;
    }
    if p >= |rest| || rest[p] != '"' {
      return "";
    }
    var value := rest[p + 1..];
    assert rest[p..][1..] == value;
    var end := IndexOf(value, '"');
    if end == |value| {
      return "";
    }
    r := value[..end];
  }

  /** Where the next quote is, from a cursor on. */
  method NextQuote(s: string, i: nat) returns (j: nat)
    requires i <= |s|
    ensures j == i + IndexOf(s[i..], '"')
  {
    j := i;
    while j < |s| && s[j] != '"'
      invariant i <= j <= |s| && forall k :: i <= k < j ==> s[k] != '"'
    {
      j := j + 1;
    }
    IndexOfIs(s[i..], '"', j - i);
  }

  method ExtractJsonArray(json: string, key: string) returns (result: seq<string>)
    ensures result == ArrayValue(json, key)
  {
    hide AfterKey, IndexOf, After, Split;
    var body := Seek(json, key, '[');
    var end := IndexOf(body, ']');
    if end == |body| {
      return [];
    }
    result := SplitStrings(body[..end]);
  }

  method SplitStrings(arr: string) returns (result: seq<string>)
    ensures result == Split(arr)
  {
    hide IndexOf;
    result := [];
    var i := 0;
    assert arr[0..] == arr;
    while i < |arr|
      invariant i <= |arr| && result + Split(arr[i..]) == Split(arr)
    {
      ghost var here := arr[i..];
      i := NextQuote(arr, i);
      if i >= |arr| {
        assert result + [] == result;
        return;
      }
      var start := i + 1;
      assert arr[start..] == After(here, '"');
      i := NextQuote(arr, start);
      ghost var rest := arr[start..];
      assert arr[start..i] == rest[..IndexOf(rest, '"')];
      ghost var before := result;
      result := result + [arr[start..i]];
      i := if i < |arr| then i + 1 else i;
      assert arr[i..] == After(rest, '"');
      assert before + ([rest[..IndexOf(rest, '"')]] + Split(arr[i..])) == result + Split(arr[i..]);
    }
    assert arr[i..] == "" && Split("") == [] by { NoQuotes(); }
  }

  lemma NoQuotes()
    ensures Split("") == []
  {
  }

  method Parse(json: string) returns (c: Command)
    ensures c == Parsed(json)
  {
    var cmd := ExtractJsonString(json, "cmd");
    var args := ExtractJsonArray(json, "args");
    c := Command(cmd, args);
  }

  method ToJson(c: Command) returns (result: string)
    ensures result == Json(c)
  {
    hide List, Quoted;
    result := OPEN + c.cmd + MIDDLE;
    ghost var head := result;
    NoArguments(c.args, head);
    for i := 0 to |c.args|
      invariant result == head + List(c.args[..i])
    {
      ListStep(c.args, i, head);
      if i > 0 {
        result := result + ",";
      }
      result := result + Quoted(c.args[i]);
    }
    assert c.args[..|c.args|] == c.args;
    result := result + "]}";
  }

  lemma NoArguments(args: seq<string>, head: string)
    ensures head == head + List(args[..0])
  {
    assert args[..0] == [];
  }

  lemma ListStep(args: seq<string>, i: nat, head: string)
    requires i < |args|
    ensures head + List(args[..i + 1]) ==
            (if i > 0 then head + List(args[..i]) + "," else head + List(args[..i])) + Quoted(args[i])
  {
    hide List, Quoted;
    assert args[..i + 1] == args[..i] + [args[i]];
    ListSnoc(args[..i], args[i]);
    Associative(head, List(args[..i]), if i == 0 then "" else ",", Quoted(args[i]));
  }

  lemma Associative(a: string, b: string, c: string, d: string)
    ensures a + (b + c + d) == a + b + c + d
    ensures c == "" ==> a + b + c + d == a + b + d
  {
    if c == "" {
      assert a + b + c == a + b;
    }
  }

  lemma {:induction false} TailSnoc(args: seq<string>, a: string)
    ensures Tail(args + [a]) == Tail(args) + "," + Quoted(a)
  {
    if args == [] {
      assert ([] + [a])[1..] == [];
    } else {
      assert (args + [a])[1..] == args[1..] + [a];
      TailSnoc(args[1..], a);
    }
  }

  lemma ListSnoc(args: seq<string>, a: string)
    ensures List(args + [a]) == List(args) + (if args == [] then "" else ",") + Quoted(a)
  {
    if args == [] {
      assert ([] + [a])[1..] == [];
    } else {
      assert (args + [a])[1..] == args[1..] + [a];
      TailSnoc(args[1..], a);
    }
  }

  // ── The round trip ─────────────────────────────────────────────────────

  predicate Plain(a: string) { '"' !in a && ']' !in a }

  predicate AllPlain(args: seq<string>) {
    forall i :: 0 <= i < |args| ==> Plain(args[i])
  }

  /** No quote in the command or the arguments, and no closing bracket in the arguments. */
  predicate Printable(c: Command) {
    '"' !in c.cmd && AllPlain(c.args)
  }

  /** Behind a prefix in which the key does not start, the key is found and skipped. */
  lemma KeySkipped(prefix: string, key: string, rest: string)
    requires forall k :: 0 <= k < |prefix| ==> !MatchAt(prefix + Quoted(key) + rest, Quoted(key), k)
    ensures AfterKey(prefix + Quoted(key) + rest, key) == rest
  {
    var s, n := prefix + Quoted(key) + rest, |prefix|;
    assert s[n..n + |Quoted(key)|] == Quoted(key);
    FindIs(s, Quoted(key), 0, n);
    assert s[n + |Quoted(key)|..] == rest;
  }

  lemma CharSkipped(prefix: string, c: char, rest: string)
    requires c !in prefix
    ensures IndexOf(prefix + [c] + rest, c) == |prefix| && After(prefix + [c] + rest, c) == rest
  {
    hide IndexOf;
    var s := prefix + [c] + rest;
    IndexOfIs(s, c, |prefix|);
    assert s[|prefix| + 1..] == rest;
  }

  lemma KeyNotFirst(s: string, key: string)
    requires s != "" && s[0] != '"'
    ensures !MatchAt(s, Quoted(key), 0)
  {
    if |Quoted(key)| <= |s| {
      assert s[0..|Quoted(key)|][0] == s[0];
    }
  }

  lemma CommandRead(c: Command)
    requires '"' !in c.cmd
    ensures StringValue(Json(c), "cmd") == c.cmd
  {
    hide AfterKey, After, IndexOf, List;
    var tail := ",\"args\":[" + List(c.args) + "]}";
    var value := c.cmd + "\"" + tail;
    assert Json(c) == "{" + Quoted("cmd") + ([] + ":" + ("\"" + value));
    KeyNotFirst("{" + Quoted("cmd") + ([] + ":" + ("\"" + value)), "cmd");
    KeySkipped("{", "cmd", [] + ":" + ("\"" + value));
    CharSkipped([], ':', "\"" + value);
    CharSkipped(c.cmd, '"', tail);
    assert ("\"" + value)[1..] == value;
  }

  lemma MatchChars(s: string, k: nat)
    ensures MatchAt(s, Quoted("args"), k) ==>
              k + 6 <= |s| && s[k] == '"' && s[k + 1] == 'a' && s[k + 2..k + 5] == "rgs" && s[k + 5] == '"'
  {
    if MatchAt(s, Quoted("args"), k) {
      var m := s[k..k + 6];
      assert m[0] == s[k] && m[1] == s[k + 1] && m[5] == s[k + 5] && m[2..5] == s[k + 2..k + 5];
    }
  }

  /** Inside the command and before the key, a quoted key starts only if the command is the key. */
  lemma ArgsKeyLater(cmd: string, rest: string, k: nat)
    requires '"' !in cmd && cmd != "args" && k < |OPEN + cmd + "\","|
    ensures !MatchAt(OPEN + cmd + "\"," + Quoted("args") + rest, Quoted("args"), k)
  {
    hide MatchAt;
    var s := OPEN + cmd + "\"," + Quoted("args") + rest;
    var n := 8 + |cmd|;
    MatchChars(s, k);
    assert s[8..n] == cmd && s[n] == '"' && s[n + 1] == ',';
    assert forall i :: 8 <= i < n ==> s[i] == cmd[i - 8] != '"';
    assert s[1] == '"' && s[2] == 'c' && s[5] == '"' && s[6] == ':' && s[7] == '"';
    if |cmd| == 4 {
      assert cmd == [cmd[0]] + s[9..12];
    } else if |cmd| < 4 {
      assert forall i :: 0 <= i < 3 ==> s[9..12][i] == s[9 + i];
    }
  }

  lemma ArgsReached(c: Command)
    requires '"' !in c.cmd
    ensures After(AfterKey(Json(c), "args"), '[') == List(c.args) + "]}"
  {
    hide AfterKey, After, IndexOf, List, MatchAt;
    var list := List(c.args) + "]}";
    if c.cmd == "args" {
      var rest := ",\"args\":[" + list;
      assert Json(c) == "{\"cmd\":" + Quoted("args") + rest;
      ArgsCommand(rest);
      KeySkipped("{\"cmd\":", "args", rest);
      CharSkipped(",\"args\":", '[', list);
      assert rest == ",\"args\":" + ['['] + list;
    } else {
      var rest := ":[" + list;
      var prefix := OPEN + c.cmd + "\",";
      assert Json(c) == prefix + Quoted("args") + rest;
      forall k | 0 <= k < |prefix| ensures !MatchAt(prefix + Quoted("args") + rest, Quoted("args"), k) {
        ArgsKeyLater(c.cmd, rest, k);
      }
      KeySkipped(prefix, "args", rest);
      CharSkipped(":", '[', list);
      assert rest == ":" + ['['] + list;
    }
  }

  /** When the command is "args" itself, the key is found there, and the bracket still after it. */
  lemma ArgsCommand(rest: string)
    ensures forall k :: 0 <= k < 7 ==> !MatchAt("{\"cmd\":" + Quoted("args") + rest, Quoted("args"), k)
  {
    hide MatchAt;
    var s := "{\"cmd\":" + Quoted("args") + rest;
    forall k | 0 <= k < 7 ensures !MatchAt(s, Quoted("args"), k) {
      MatchChars(s, k);
    }
  }

  lemma SplitQuoted(prefix: string, a: string, rest: string)
    requires '"' !in prefix && '"' !in a
    ensures Split(prefix + Quoted(a) + rest) == [a] + Split(rest)
  {
    hide IndexOf, After;
    var behind := a + ['"'] + rest;
    assert prefix + Quoted(a) + rest == prefix + ['"'] + behind;
    CharSkipped(prefix, '"', behind);
    CharSkipped(a, '"', rest);
    assert behind[..|a|] == a;
  }

  lemma {:induction false} SplitTail(args: seq<string>)
    requires AllPlain(args)
    ensures Split(Tail(args)) == args && ']' !in Tail(args)
  {
    hide Split;
    if args == [] {
      NoQuotes();
    } else {
      assert Plain(args[0]);
      SplitTail(args[1..]);
      SplitQuoted(",", args[0], Tail(args[1..]));
    }
  }

  lemma SplitList(args: seq<string>)
    requires AllPlain(args)
    ensures Split(List(args)) == args && ']' !in List(args)
  {
    hide Split;
    if args == [] {
      NoQuotes();
    } else {
      assert Plain(args[0]);
      SplitTail(args[1..]);
      SplitQuoted("", args[0], Tail(args[1..]));
      assert "" + Quoted(args[0]) + Tail(args[1..]) == List(args);
    }
  }

  lemma ArgumentsRead(c: Command)
    requires Printable(c)
    ensures ArrayValue(Json(c), "args") == c.args
  {
    hide AfterKey, After, IndexOf, List, Split, Json;
    ArgsReached(c);
    SplitList(c.args);
    var s := List(c.args) + "]}";
    CharSkipped(List(c.args), ']', "}");
    assert s == List(c.args) + [']'] + "}";
    assert s[..|List(c.args)|] == List(c.args);
  }

  /** Whatever is parsed, what comes out has no quotes, and no closing bracket in an argument. */
  lemma ParsedPrintable(json: string)
    ensures Printable(Parsed(json))
  {
    hide AfterKey, After, Split;
    var rest := After(AfterKey(json, "args"), '[');
    SplitPlain(rest[..IndexOf(rest, ']')]);
  }

  lemma {:induction false} SplitPlain(s: string)
    requires ']' !in s
    ensures AllPlain(Split(s))
    decreases |s|
  {
    if IndexOf(s, '"') < |s| {
      var rest := After(s, '"');
      SplitPlain(After(rest, '"'));
      assert Plain(rest[..IndexOf(rest, '"')]);
    }
  }

  /**
   Parsing what was printed gives the command back if and only if no quote
   occurs in the command or an argument and no closing bracket in an argument.
   */
  lemma RoundTrip(c: Command)
    ensures Parsed(Json(c)) == c <==> Printable(c)
  {
    hide Json, StringValue, ArrayValue;
    ParsedPrintable(Json(c));
    if Printable(c) {
      CommandRead(c);
      ArgumentsRead(c);
    }
  }
}
