/** The prefix of a serialized argument object that is safe to stream: all that later, longer objects
    are sure to begin with.
 */
module ArgPrefix {
  import opened Wrappers

  /** JSON values, objects ordered; an atom is the text of a number, a boolean or null. */
  datatype Json =
    | JStr(text: string)
    | JAtom(literal: string)
    | JArr(items: seq<Json>)
    | JObj(entries: seq<Entry>)

  datatype Entry = Entry(key: string, value: Json)

  /** Text that opens and closes nothing and separates nothing. */
  predicate Plain(c: char) {
    c !in {'"', '\\', '{', '}', '[', ']', ':', ',', ' ', '\t', '\n', '\r'}
  }

  predicate WellFormed(v: Json) {
    match v
    case JStr(_) => true
    case JAtom(literal) => literal != "" && forall i :: 0 <= i < |literal| ==> Plain(literal[i])
    case JArr(items) => forall i :: 0 <= i < |items| ==> WellFormed(items[i])
    case JObj(entries) => forall i :: 0 <= i < |entries| ==> WellFormed(entries[i].value)
  }

  function HexDigit(n: nat): char
    requires n < 16
  {
    "0123456789abcdef"[n]
  }

  /** A character in a JSON string, as section 7 of RFC 8259 has it escaped. */
  function EscapeChar(c: char): string {
    if c == '"' then "\\\""
    else if c == '\\' then "\\\\"
    else if c == '\n' then "\\n"
    else if c == '\r' then "\\r"
    else if c == '\t' then "\\t"
    else if c == '\U{C}' then "\\f"
    else if c == '\U{8}' then "\\b"
    else if c < ' ' then "\\u00" + [HexDigit(c as int / 16), HexDigit(c as int % 16)]
    else [c]
  }

  function Escape(s: string): string {
    if s == "" then "" else Escape(s[..|s| - 1]) + EscapeChar(s[|s| - 1])
  }

  function Quote(s: string): string {
    "\"" + Escape(s) + "\""
  }

  function Serialize(v: Json): string
    decreases v, 1
  {
    match v
    case JStr(text) => Quote(text)
    case JAtom(literal) => literal
    case JArr(items) => "[" + SerializeItems(items) + "]"
    case JObj(entries) => "{" + SerializeEntries(entries) + "}"
  }

  function SerializeItems(items: seq<Json>): string
    decreases items, 0
  {
    if items == [] then ""
    else
      var last := |items| - 1;
      SerializeItems(items[..last]) + (if last > 0 then ", " else "") + Serialize(items[last])
  }

  function SerializeEntries(entries: seq<Entry>): string
    decreases entries, 0
  {
    if entries == [] then ""
    else
      var last := |entries| - 1;
      SerializeEntries(entries[..last]) + (if last > 0 then ", " else "")
      + Quote(entries[last].key) + ": " + Serialize(entries[last].value)
  }

  /** The scan's variables; `raw` is what stands between the open quote and the position. */
  datatype Scanner = Scanner(
    escape: bool,
    inString: bool,
    raw: string,
    depth: int,
    pending: Option<string>,
    colon: int,
    key: Option<string>,
    pos: nat)

  const START := Scanner(false, false, "", 0, None, -1, None, 0)

  function Step(sc: Scanner, c: char): Scanner {
    var next := sc.(pos := sc.pos + 1);
    if sc.escape then next.(escape := false, raw := sc.raw + [c])
    else if sc.inString then
      if c == '\\' then next.(escape := true, raw := sc.raw + [c])
      else if c == '"' then
        next.(inString := false, raw := "", pending := if sc.depth == 1 then Some(sc.raw) else sc.pending)
      else next.(raw := sc.raw + [c])
    else if c == '"' then next.(inString := true, raw := "")
    else if c == '{' || c == '[' then next.(depth := sc.depth + 1)
    else if c == '}' || c == ']' then next.(depth := sc.depth - 1)
    else if c == ':' && sc.depth == 1 then next.(colon := sc.pos, key := sc.pending, pending := None)
    else next
  }

  function Scan(sc: Scanner, s: string): Scanner {
    if s == "" then sc else Step(Scan(sc, s[..|s| - 1]), s[|s| - 1])
  }

  function SkipSpace(s: string, i: nat): (end: nat)
    requires i <= |s|
    ensures i <= end <= |s|
    decreases |s| - i
  {
    if i < |s| && s[i] in {' ', '\t', '\n', '\r'} then SkipSpace(s, i + 1) else i
  }

  /** Where an open string ends: at its closing quote, or with the text. */
  function CloseOf(s: string, i: nat, escape: bool): (end: nat)
    requires i <= |s|
    ensures i <= end <= |s|
    decreases |s| - i
  {
    if i == |s| then i
    else if escape then CloseOf(s, i + 1, false)
    else if s[i] == '\\' then CloseOf(s, i + 1, true)
    else if s[i] == '"' then i
    else CloseOf(s, i + 1, false)
  }

  lemma ScanColon(s: string)
    ensures Scan(START, s).pos == |s| && -1 <= Scan(START, s).colon < |s|
  {
  }

  function SafePrefix(s: string, keys: Option<set<string>>): string {
    var sc := Scan(START, s);
    if sc.colon < 0 then ""
    else
      ScanColon(s);
      var end := SkipSpace(s, sc.colon + 1);
      if end >= |s| || s[end] != '"' then s[..end]
      else if keys.Some? && (sc.key.None? || sc.key.value !in keys.value) then s[..end]
      else s[..CloseOf(s, end + 1, false)]
  }

  lemma ScanNone(s: string)
    ensures Scan(START, s[..0]) == START
  {
  }

  lemma ScanNext(s: string, i: nat)
    requires i < |s|
    ensures Scan(START, s[..i + 1]) == Step(Scan(START, s[..i]), s[i])
  {
    assert s[..i + 1][..i] == s[..i];
  }

  /** The scan's variables, `start` where the latest string was opened. */
  datatype Cursor = Cursor(
    escape: bool,
    inString: bool,
    start: int,
    depth: int,
    pending: Option<string>,
    colon: int,
    key: Option<string>)

  ghost predicate Tracks(s: string, i: nat, cur: Cursor)
    requires i <= |s|
  {
    && -1 <= cur.colon < i && -1 <= cur.start < i
    && (cur.inString ==> cur.start >= 0) && (cur.escape ==> cur.inString)
    && Scan(START, s[..i]) == Seen(s, i, cur)
  }

  /** The scan's variables that a cursor stands for. */
  function Seen(s: string, i: nat, cur: Cursor): Scanner
    requires i <= |s| && cur.start < i && (cur.inString ==> cur.start >= 0)
  {
    Scanner(cur.escape, cur.inString, if cur.inString then s[cur.start + 1..i] else "", cur.depth, cur.pending,
            cur.colon, cur.key, i)
  }

  lemma SeenInside(s: string, i: nat, cur: Cursor)
    requires i < |s| && 0 <= cur.start < i && cur.inString
    ensures Seen(s, i + 1, cur) == Seen(s, i, cur).(raw := Seen(s, i, cur).raw + [s[i]], pos := i + 1)
  {
    SliceSnoc(s, cur.start + 1, i);
  }

  lemma SeenOpened(s: string, i: nat, cur: Cursor)
    requires i < |s| && cur.inString && cur.start == i
    ensures Seen(s, i + 1, cur).raw == ""
  {
  }

  lemma SliceSnoc(s: string, start: nat, i: nat)
    requires start <= i < |s|
    ensures s[start..i + 1] == s[start..i] + [s[i]]
  {
  }

  /** One turn of the scan. */
  method ScanChar(s: string, i: nat, cur: Cursor) returns (next: Cursor)
    requires i < |s| && Tracks(s, i, cur)
    ensures Tracks(s, i + 1, next)
  {
    hide Scan;
    ScanNext(s, i);
    var c := s[i];
    next := cur;
    if cur.escape {
      next := cur.(escape := false);
      SeenInside(s, i, next);
    } else if cur.inString {
      SeenInside(s, i, cur);
      if c == '\\' {
        next := cur.(escape := true);
      } else if c == '"' {
        next := cur.(inString := false, pending := if cur.depth == 1 then Some(s[cur.start + 1..i]) else cur.pending);
      }
    } else if c == '"' {
      next := cur.(inString := true, start := i);
      SeenOpened(s, i, next);
    } else if c == '{' || c == '[' {
      next := cur.(depth := cur.depth + 1);
    } else if c == '}' || c == ']' {
      next := cur.(depth := cur.depth - 1);
    } else if c == ':' && cur.depth == 1 {
      next := cur.(colon := i, key := cur.pending, pending := None);
    }
  }

  /** The scan as the parser engine runs it, one character at a time. */
  method SafeArgPrefix(s: string, keys: Option<set<string>>) returns (safe: string)
    ensures safe == SafePrefix(s, keys)
  {
    ScanNone(s);
    var cur := Cursor(false, false, -1, 0, None, -1, None);
    for i := 0 to |s|
      invariant Tracks(s, i, cur)
    {
      cur := ScanChar(s, i, cur);
    }
    assert s[..|s|] == s;
    if cur.colon < 0 {
      return "";
    }
    safe := TailPrefix(s, cur.colon, cur.key, keys);
  }

  /** After the last colon: stop before a value that may change, or within a string that only grows. */
  method TailPrefix(s: string, colon: nat, key: Option<string>, keys: Option<set<string>>) returns (safe: string)
    requires colon < |s| && Scan(START, s).colon == colon && Scan(START, s).key == key
    ensures safe == SafePrefix(s, keys)
  {
    var end := colon + 1;
    while end < |s| && s[end] in {' ', '\t', '\n', '\r'}
      invariant colon < end <= |s|
      invariant SkipSpace(s, end) == SkipSpace(s, colon + 1)
    {
      end := end + 1;
    }
    if end >= |s| || s[end] != '"' {
      return s[..end];
    }
    if keys.Some? && (key.None? || key.value !in keys.value) {
      return s[..end];
    }
    var escape := false;
    for i := end + 1 to |s|
      invariant CloseOf(s, i, escape) == CloseOf(s, end + 1, false)
    {
      if escape {
        escape := false;
      } else if s[i] == '\\' {
        escape := true;
      } else if s[i] == '"' {
        return s[..i];
      }
    }
    assert s[..|s|] == s;
    safe := s;
  }
}
