/** What the safe prefix of a serialized object is, and why later objects keep it. */
module ArgStability {
  import opened ArgPrefix
  import opened Wrappers

  function Idle(sc: Scanner): bool {
    !sc.escape && !sc.inString && sc.raw == ""
  }

  function Past(sc: Scanner, n: nat): Scanner {
    sc.(pos := sc.pos + n)
  }

  lemma {:induction false} ScanConcat(sc: Scanner, a: string, b: string)
    ensures Scan(sc, a + b) == Scan(Scan(sc, a), b)
  {
    if b == "" {
      assert a + b == a;
    } else {
      assert (a + b)[..|a + b| - 1] == a + b[..|b| - 1];
      ScanConcat(sc, a, b[..|b| - 1]);
    }
  }

  lemma ScanOne(sc: Scanner, c: char)
    ensures Scan(sc, [c]) == Step(sc, c)
  {
    assert [c][..0] == "";
  }

  lemma ScanTwo(sc: Scanner, c: char, d: char)
    ensures Scan(sc, [c, d]) == Step(Step(sc, c), d)
  {
    assert [c, d][..1] == [c];
    ScanOne(sc, c);
  }

  lemma {:induction false} ScanPlain(sc: Scanner, s: string)
    requires Idle(sc) && forall i :: 0 <= i < |s| ==> Plain(s[i])
    ensures Scan(sc, s) == Past(sc, |s|)
  {
    if s != "" {
      ScanPlain(sc, s[..|s| - 1]);
    }
  }

  lemma HexIsPlain(n: nat)
    requires n < 16
    ensures Plain(HexDigit(n))
  {
  }

  lemma RawPlus(raw: string, a: string, b: string)
    ensures raw + a + b == raw + (a + b)
  {
  }

  /** A pair in which the first character escapes the second. */
  lemma ScanPair(sc: Scanner, c: char)
    requires sc.inString && !sc.escape
    ensures Scan(sc, ['\\', c]) == sc.(raw := sc.raw + ['\\', c], pos := sc.pos + 2)
  {
    hide Scan;
    ScanTwo(sc, '\\', c);
    RawPlus(sc.raw, ['\\'], [c]);
    assert ['\\'] + [c] == ['\\', c];
  }

  lemma ScanPlainPair(sc: Scanner, c: char, d: char)
    requires sc.inString && !sc.escape && Plain(c) && Plain(d)
    ensures Scan(sc, [c, d]) == sc.(raw := sc.raw + [c, d], pos := sc.pos + 2)
  {
    hide Scan;
    ScanTwo(sc, c, d);
    RawPlus(sc.raw, [c], [d]);
    assert [c] + [d] == [c, d];
  }

  lemma ScanUnicode(sc: Scanner, hi: char, lo: char)
    requires sc.inString && !sc.escape && Plain(hi) && Plain(lo)
    ensures var e := "\\u00" + [hi, lo]; Scan(sc, e) == sc.(raw := sc.raw + e, pos := sc.pos + 6)
  {
    hide Scan, Step;
    var a, b, d := ['\\', 'u'], ['0', '0'], [hi, lo];
    ScanPair(sc, 'u');
    var sc1 := Scan(sc, a);
    ScanPlainPair(sc1, '0', '0');
    var sc2 := Scan(sc1, b);
    ScanPlainPair(sc2, hi, lo);
    ScanConcat(sc, a, b);
    ScanConcat(sc, a + b, d);
    assert "\\u00" + d == a + b + d;
    RawPlus(sc.raw, a, b);
    RawPlus(sc.raw, a + b, d);
  }

  /** The scan passes an escaped character within a string and stays in the string. */
  lemma ScanEscapeChar(sc: Scanner, c: char)
    requires sc.inString && !sc.escape
    ensures Scan(sc, EscapeChar(c)) == sc.(raw := sc.raw + EscapeChar(c), pos := sc.pos + |EscapeChar(c)|)
  {
    hide Scan;
    var e := EscapeChar(c);
    if |e| == 1 {
      ScanOne(sc, c);
      assert e == [c];
    } else if |e| == 2 {
      ScanPair(sc, e[1]);
      assert e == ['\\', e[1]];
    } else {
      HexIsPlain(c as int / 16);
      HexIsPlain(c as int % 16);
      ScanUnicode(sc, HexDigit(c as int / 16), HexDigit(c as int % 16));
    }
  }

  lemma {:induction false} ScanEscape(sc: Scanner, s: string)
    requires sc.inString && !sc.escape
    ensures Scan(sc, Escape(s)) == sc.(raw := sc.raw + Escape(s), pos := sc.pos + |Escape(s)|)
  {
    hide EscapeChar, Step;
    if s != "" {
      var last := |s| - 1;
      ScanEscape(sc, s[..last]);
      ScanConcat(sc, Escape(s[..last]), EscapeChar(s[last]));
      ScanEscapeChar(Scan(sc, Escape(s[..last])), s[last]);
      assert sc.raw + Escape(s[..last]) + EscapeChar(s[last]) == sc.raw + Escape(s);
    } else {
      assert sc.raw + "" == sc.raw;
    }
  }

  /** A quoted string leaves its escaped text pending at depth one, and nothing deeper. */
  lemma ScanQuote(sc: Scanner, s: string)
    requires Idle(sc)
    ensures Scan(sc, Quote(s)) ==
              Past(sc, |Quote(s)|).(pending := if sc.depth == 1 then Some(Escape(s)) else sc.pending)
  {
    hide Escape, Scan;
    assert Quote(s) == ['"'] + Escape(s) + ['"'];
    ScanConcat(sc, ['"'] + Escape(s), ['"']);
    ScanConcat(sc, ['"'], Escape(s));
    ScanOne(sc, '"');
    var opened_ := Scan(sc, ['"']);
    ScanEscape(opened_, s);
    assert "" + Escape(s) == Escape(s);
    ScanOne(Scan(opened_, Escape(s)), '"');
  }

  lemma ScanSeparator(sc: Scanner, first: bool)
    requires Idle(sc)
    ensures var sep := if first then "" else ", "; Scan(sc, sep) == Past(sc, |sep|)
  {
    if !first {
      ScanTwo(sc, ',', ' ');
      assert ", " == [',', ' '];
    }
  }

  /** Inside nested values the scan only moves on. */
  lemma {:induction false} ScanDeep(sc: Scanner, v: Json)
    requires Idle(sc) && sc.depth >= 2 && WellFormed(v)
    ensures Scan(sc, Serialize(v)) == Past(sc, |Serialize(v)|)
    decreases v, 1
  {
    hide Step, Quote;
    match v {
      case JStr(text) => ScanQuote(sc, text);
      case JAtom(literal) => ScanPlain(sc, literal);
      case JArr(items) =>
        ScanDeepItems(sc.(depth := sc.depth + 1, pos := sc.pos + 1), items);
        ScanBracketed(sc, sc.(depth := sc.depth + 1, pos := sc.pos + 1), '[', SerializeItems(items), ']');
      case JObj(entries) =>
        ScanDeepEntries(sc.(depth := sc.depth + 1, pos := sc.pos + 1), entries);
        ScanBracketed(sc, sc.(depth := sc.depth + 1, pos := sc.pos + 1), '{', SerializeEntries(entries), '}');
    }
  }

  lemma ScanOpen(sc: Scanner, open: char)
    requires Idle(sc) && (open == '[' || open == '{')
    ensures Scan(sc, [open]) == sc.(depth := sc.depth + 1, pos := sc.pos + 1)
  {
    ScanOne(sc, open);
  }

  lemma ScanClose(sc: Scanner, close: char)
    requires Idle(sc) && (close == ']' || close == '}')
    ensures Scan(sc, [close]) == sc.(depth := sc.depth - 1, pos := sc.pos + 1)
  {
    ScanOne(sc, close);
  }

  lemma ScanBracketed(sc: Scanner, inner: Scanner, open: char, body: string, close: char)
    requires Idle(sc) && (open == '[' || open == '{') && (close == ']' || close == '}')
    requires inner == sc.(depth := sc.depth + 1, pos := sc.pos + 1) && Scan(inner, body) == Past(inner, |body|)
    ensures Scan(sc, [open] + body + [close]) == Past(sc, |body| + 2)
  {
    hide Scan, Step, Idle;
    IdleInside(sc, inner, |body|);
    ScanConcat(sc, [open] + body, [close]);
    ScanConcat(sc, [open], body);
    ScanOpen(sc, open);
    ScanClose(Past(inner, |body|), close);
  }

  lemma IdleInside(sc: Scanner, inner: Scanner, n: nat)
    requires Idle(sc) && inner == sc.(depth := inner.depth, pos := inner.pos)
    ensures Idle(Past(inner, n))
  {
  }

  lemma {:induction false} ScanDeepItems(sc: Scanner, items: seq<Json>)
    requires Idle(sc) && sc.depth >= 2 && forall i :: 0 <= i < |items| ==> WellFormed(items[i])
    ensures Scan(sc, SerializeItems(items)) == Past(sc, |SerializeItems(items)|)
    decreases items, 0
  {
    hide Step, Serialize;
    if items != [] {
      var last := |items| - 1;
      var sep := if last > 0 then ", " else "";
      ScanDeepItems(sc, items[..last]);
      var front := SerializeItems(items[..last]);
      ScanSeparator(Past(sc, |front|), last == 0);
      ScanDeep(Past(sc, |front| + |sep|), items[last]);
      ScanConcat(sc, front + sep, Serialize(items[last]));
      ScanConcat(sc, front, sep);
    }
  }

  /** Up to and with a key's colon and space. */
  function KeyPart(key: string, first: bool): string {
    (if first then "" else ", ") + Quote(key) + ": "
  }

  lemma ScanKey(sc: Scanner, key: string, first: bool)
    requires Idle(sc)
    ensures var part := KeyPart(key, first);
            Scan(sc, part) ==
              if sc.depth == 1
              then Past(sc, |part|).(colon := sc.pos + |part| - 2, key := Some(Escape(key)), pending := None)
              else Past(sc, |part|)
  {
    var sep := if first then "" else ", ";
    hide Quote, Escape, Scan;
    ScanSeparator(sc, first);
    ScanQuote(Past(sc, |sep|), key);
    ScanConcat(sc, sep + Quote(key), [':', ' ']);
    ScanConcat(sc, sep, Quote(key));
    ScanTwo(Scan(sc, sep + Quote(key)), ':', ' ');
    assert KeyPart(key, first) == sep + Quote(key) + [':', ' '];
  }

  lemma Regroup(a: string, b: string, c: string, d: string, e: string)
    ensures a + b + c + d + e == a + ((b + c + d) + e)
  {
  }

  lemma EntriesSnoc(entries: seq<Entry>)
    requires entries != []
    ensures var last := |entries| - 1;
            SerializeEntries(entries) ==
              SerializeEntries(entries[..last])
              + (KeyPart(entries[last].key, last == 0) + Serialize(entries[last].value))
  {
    hide Quote, Serialize;
    var last := |entries| - 1;
    Regroup(SerializeEntries(entries[..last]), if last > 0 then ", " else "", Quote(entries[last].key), ": ",
            Serialize(entries[last].value));
  }

  lemma NoEntries(sc: Scanner)
    ensures SerializeEntries([]) == "" && Scan(sc, "") == sc
  {
  }

  lemma {:induction false} ScanDeepEntries(sc: Scanner, entries: seq<Entry>)
    requires Idle(sc) && sc.depth >= 2 && forall i :: 0 <= i < |entries| ==> WellFormed(entries[i].value)
    ensures Scan(sc, SerializeEntries(entries)) == Past(sc, |SerializeEntries(entries)|)
    decreases entries, 0
  {
    hide Step, Serialize, KeyPart, Scan, SerializeEntries, WellFormed;
    if entries == [] {
      NoEntries(sc);
    } else {
      var last := |entries| - 1;
      EntriesSnoc(entries);
      var front, part := SerializeEntries(entries[..last]), KeyPart(entries[last].key, last == 0);
      ScanDeepEntries(sc, entries[..last]);
      ScanKey(Past(sc, |front|), entries[last].key, last == 0);
      ScanDeep(Past(sc, |front| + |part|), entries[last].value);
      ScanConcat(sc, front, part + Serialize(entries[last].value));
      ScanConcat(Past(sc, |front|), part, Serialize(entries[last].value));
    }
  }

  /** At depth one a string value leaves its text pending; other values leave nothing. */
  lemma ScanValue(sc: Scanner, v: Json)
    requires Idle(sc) && sc.depth == 1 && WellFormed(v)
    ensures Scan(sc, Serialize(v)) ==
              Past(sc, |Serialize(v)|).(pending := if v.JStr? then Some(Escape(v.text)) else sc.pending)
  {
    hide Step, Quote;
    match v {
      case JStr(text) => ScanQuote(sc, text);
      case JAtom(literal) => ScanPlain(sc, literal);
      case JArr(items) =>
        ScanDeepItems(sc.(depth := 2, pos := sc.pos + 1), items);
        ScanBracketed(sc, sc.(depth := 2, pos := sc.pos + 1), '[', SerializeItems(items), ']');
      case JObj(entries) =>
        ScanDeepEntries(sc.(depth := 2, pos := sc.pos + 1), entries);
        ScanBracketed(sc, sc.(depth := 2, pos := sc.pos + 1), '{', SerializeEntries(entries), '}');
    }
  }

  predicate AllWellFormed(entries: seq<Entry>) {
    forall i :: 0 <= i < |entries| ==> WellFormed(entries[i].value)
  }

  /** The entries' text up to the last value. */
  function Head(entries: seq<Entry>): string
    requires entries != []
  {
    var last := |entries| - 1;
    SerializeEntries(entries[..last]) + KeyPart(entries[last].key, last == 0)
  }

  /** What the scan knows after the entries: the last key, and where its colon is. */
  predicate Knows(sc: Scanner, start: Scanner, entries: seq<Entry>) {
    && Idle(sc) && sc.depth == 1 && sc.pos == start.pos + |SerializeEntries(entries)|
    && if entries == [] then sc.colon == start.colon && sc.key == start.key
       else sc.colon == start.pos + |Head(entries)| - 2 && sc.key == Some(Escape(entries[|entries| - 1].key))
  }

  lemma {:induction false} ScanEntries(sc: Scanner, entries: seq<Entry>)
    requires Idle(sc) && sc.depth == 1 && AllWellFormed(entries)
    ensures Knows(Scan(sc, SerializeEntries(entries)), sc, entries)
    decreases |entries|
  {
    hide Step, Serialize, KeyPart, Scan, SerializeEntries, WellFormed, Escape;
    if entries == [] {
      NoEntries(sc);
    } else {
      var last := |entries| - 1;
      var value := entries[last].value;
      EntriesSnoc(entries);
      var front, part := SerializeEntries(entries[..last]), KeyPart(entries[last].key, last == 0);
      ScanEntries(sc, entries[..last]);
      var mid := Scan(sc, front);
      ScanKey(mid, entries[last].key, last == 0);
      ScanValue(Scan(mid, part), value);
      ScanConcat(sc, front, part + Serialize(value));
      ScanConcat(mid, part, Serialize(value));
    }
  }

  lemma ScanObject(entries: seq<Entry>)
    requires AllWellFormed(entries) && entries != []
    ensures var sc := Scan(START, Serialize(JObj(entries)));
            sc.colon == |Head(entries)| - 1 && sc.key == Some(Escape(entries[|entries| - 1].key))
  {
    hide Step, Scan, SerializeEntries, Escape, KeyPart;
    var body := SerializeEntries(entries);
    assert Serialize(JObj(entries)) == ['{'] + body + ['}'];
    ScanConcat(START, ['{'] + body, ['}']);
    ScanConcat(START, ['{'], body);
    ScanOpen(START, '{');
    var opened_ := Scan(START, ['{']);
    ScanEntries(opened_, entries);
    ScanClose(Scan(opened_, body), '}');
  }

  lemma ScanNoEntries()
    ensures Scan(START, Serialize(JObj([]))).colon == -1
  {
    hide Scan;
    assert Serialize(JObj([])) == ['{', '}'];
    ScanTwo(START, '{', '}');
  }

  /** A value's text starts with a quote exactly if it is a string, and never with a space. */
  lemma FirstChar(v: Json)
    requires WellFormed(v)
    ensures Serialize(v) != "" && (Serialize(v)[0] == '"' <==> v.JStr?)
    ensures Serialize(v)[0] !in {' ', '\t', '\n', '\r'}
  {
    hide Escape, SerializeItems, SerializeEntries;
  }

  lemma {:induction false} EscapeConcat(a: string, b: string)
    ensures Escape(a + b) == Escape(a) + Escape(b)
  {
    hide EscapeChar;
    if b == "" {
      assert a + b == a;
    } else {
      assert (a + b)[..|a + b| - 1] == a + b[..|b| - 1];
      EscapeConcat(a, b[..|b| - 1]);
    }
  }

  lemma EscapeOne(c: char)
    ensures Escape([c]) == EscapeChar(c)
  {
    hide EscapeChar;
    assert [c][..0] == "";
  }

  lemma CloseSkips(s: string, i: nat)
    requires i < |s| && s[i] != '"' && s[i] != '\\'
    ensures CloseOf(s, i, false) == CloseOf(s, i + 1, false)
  {
  }

  lemma CloseSkipsPair(s: string, i: nat)
    requires i + 1 < |s| && s[i] == '\\'
    ensures CloseOf(s, i, false) == CloseOf(s, i + 2, false)
  {
  }

  /** The search for the closing quote passes an escaped character. */
  lemma CloseEscapeChar(s: string, i: nat, c: char)
    requires i + |EscapeChar(c)| <= |s| && s[i..i + |EscapeChar(c)|] == EscapeChar(c)
    ensures CloseOf(s, i, false) == CloseOf(s, i + |EscapeChar(c)|, false)
  {
    hide CloseOf;
    var e := EscapeChar(c);
    assert forall k :: 0 <= k < |e| ==> s[i + k] == e[k];
    if |e| == 1 {
      assert s[i] == e[0];
      CloseSkips(s, i);
    } else {
      assert s[i] == e[0];
      CloseSkipsPair(s, i);
      if |e| == 6 {
        HexIsPlain(c as int / 16);
        HexIsPlain(c as int % 16);
        assert s[i + 2] == e[2] && s[i + 3] == e[3] && s[i + 4] == e[4] && s[i + 5] == e[5];
        CloseSkips(s, i + 2);
        CloseSkips(s, i + 3);
        CloseSkips(s, i + 4);
        CloseSkips(s, i + 5);
      }
    }
  }

  /** The search passes a whole escaped text and stops at the quote behind it. */
  lemma {:induction false} CloseEscaped(s: string, i: nat, text: string)
    requires i + |Escape(text)| < |s| && s[i..i + |Escape(text)|] == Escape(text) && s[i + |Escape(text)|] == '"'
    ensures CloseOf(s, i, false) == i + |Escape(text)|
    decreases |text|
  {
    hide EscapeChar, Escape;
    if text == "" {
      NothingEscaped();
    } else {
      assert text == [text[0]] + text[1..];
      EscapeConcat([text[0]], text[1..]);
      EscapeOne(text[0]);
      var e := EscapeChar(text[0]);
      assert Escape(text)[..|e|] == e && Escape(text)[|e|..] == Escape(text[1..]);
      assert s[i..i + |e|] == s[i..i + |Escape(text)|][..|e|];
      assert s[i + |e|..i + |Escape(text)|] == s[i..i + |Escape(text)|][|e|..];
      CloseEscapeChar(s, i, text[0]);
      CloseEscaped(s, i + |e|, text[1..]);
    }
  }

  lemma NothingEscaped()
    ensures Escape("") == ""
  {
  }

  /** Whether a key's string value is streamed before it is complete. */
  predicate Streams(keys: Option<set<string>>, key: string) {
    keys.None? || Escape(key) in keys.value
  }

  /** The safe prefix of a serialized object: everything up to its last value, and of a string value
      that streams all but the closing quote. */
  function SafeForm(entries: seq<Entry>, keys: Option<set<string>>): string {
    if entries == [] then ""
    else
      var last := entries[|entries| - 1];
      "{" + Head(entries) + if last.value.JStr? && Streams(keys, last.key) then "\"" + Escape(last.value.text) else ""
  }

  lemma ObjectText(entries: seq<Entry>)
    requires entries != []
    ensures Serialize(JObj(entries)) == "{" + Head(entries) + Serialize(entries[|entries| - 1].value) + "}"
    ensures |Head(entries)| >= 2 && Head(entries)[|Head(entries)| - 1] == ' '
  {
    hide Serialize, KeyPart, SerializeEntries;
    EntriesSnoc(entries);
    ObjectIs(entries);
    var last := |entries| - 1;
    KeyPartEnds(entries[last].key, last == 0);
    var front, part := SerializeEntries(entries[..last]), KeyPart(entries[last].key, last == 0);
    assert front + part + Serialize(entries[last].value) == front + (part + Serialize(entries[last].value));
    assert "{" + (front + part + Serialize(entries[last].value)) + "}"
           == "{" + (front + part) + Serialize(entries[last].value) + "}";
  }

  lemma ObjectIs(entries: seq<Entry>)
    ensures Serialize(JObj(entries)) == "{" + SerializeEntries(entries) + "}"
  {
  }

  lemma KeyPartEnds(key: string, first: bool)
    ensures |KeyPart(key, first)| >= 2 && KeyPart(key, first)[|KeyPart(key, first)| - 1] == ' '
  {
  }

  /** The text of an object with its last value's text and what follows it picked out. */
  lemma TailAt(s: string, head: string, value: string)
    requires s == "{" + head + value + "}" && value != ""
    ensures s[..1 + |head|] == "{" + head && s[1 + |head|] == value[0] && |s| == |head| + |value| + 2
    ensures head != "" ==> s[|head|] == head[|head| - 1]
    ensures forall n :: 0 <= n <= |value| ==> s[1 + |head|..1 + |head| + n] == value[..n]
  {
  }

  lemma SkipOne(s: string, i: nat)
    requires i + 1 < |s| && s[i] == ' ' && s[i + 1] !in {' ', '\t', '\n', '\r'}
    ensures SkipSpace(s, i) == i + 1
  {
  }

  /** The scan computes the safe form. */
  lemma SafePrefixForm(entries: seq<Entry>, keys: Option<set<string>>)
    requires AllWellFormed(entries)
    ensures SafePrefix(Serialize(JObj(entries)), keys) == SafeForm(entries, keys)
  {
    hide Serialize, Scan, Head, Escape, CloseOf, SkipSpace, KeyPart;
    if entries == [] {
      ScanNoEntries();
    } else {
      var last := entries[|entries| - 1];
      var s, head, value := Serialize(JObj(entries)), Head(entries), Serialize(last.value);
      ScanObject(entries);
      ObjectText(entries);
      FirstChar(last.value);
      TailAt(s, head, value);
      SkipOne(s, |head|);
      assert SkipSpace(s, |head|) == 1 + |head|;
      if last.value.JStr? && Streams(keys, last.key) {
        StringIs(last.value);
        CloseValue(s, head, last.value.text);
      }
    }
  }

  lemma StringIs(v: Json)
    requires v.JStr?
    ensures Serialize(v) == Quote(v.text)
  {
  }

  lemma Middle(s: string, pre: string, mid: string, post: string)
    requires s == pre + mid + post
    ensures |pre| + |mid| <= |s| && s[|pre|..|pre| + |mid|] == mid && s[..|pre| + |mid|] == pre + mid
    ensures post != "" ==> |pre| + |mid| < |s| && s[|pre| + |mid|] == post[0]
  {
  }

  lemma QuotedMiddle(head: string, escaped: string)
    ensures "{" + head + ("\"" + escaped + "\"") + "}" == ("{" + head + "\"") + escaped + "\"}"
    ensures ("{" + head + "\"") + escaped == "{" + head + ("\"" + escaped)
  {
  }

  lemma CloseValue(s: string, head: string, text: string)
    requires s == "{" + head + Quote(text) + "}"
    ensures 2 + |head| <= |s| && CloseOf(s, 2 + |head|, false) == 2 + |head| + |Escape(text)|
    ensures s[..2 + |head| + |Escape(text)|] == "{" + head + ("\"" + Escape(text))
  {
    hide Escape, CloseOf;
    QuotedMiddle(head, Escape(text));
    Middle(s, "{" + head + "\"", Escape(text), "\"}");
    CloseEscaped(s, 2 + |head|, text);
  }
}
