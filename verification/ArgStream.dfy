/** Streaming of tool-call arguments: only stable prefixes are ever sent, so that the pieces sent for a
    call add up to its final arguments.
 */
module ArgStream {
  import opened ArgPrefix
  import opened ArgStability
  import opened Wrappers

  /** A later object `f` extends a partial one: its last string may have grown if it streams, its last
      other value may have changed, and entries may have been added. */
  predicate Extends(p: seq<Entry>, f: seq<Entry>, keys: Option<set<string>>) {
    p == [] ||
    var n := |p|;
    && n <= |f| && p[..n - 1] == f[..n - 1] && p[n - 1].key == f[n - 1].key
    && (p[n - 1].value.JStr? && Streams(keys, p[n - 1].key) ==>
          f[n - 1].value.JStr? && p[n - 1].value.text <= f[n - 1].value.text)
  }

  lemma EscapePrefix(s: string, t: string)
    requires s <= t
    ensures Escape(s) <= Escape(t)
  {
    assert t == s + t[|s|..];
    EscapeConcat(s, t[|s|..]);
  }

  lemma {:induction false} EntriesPrefix(f: seq<Entry>, n: nat)
    requires n <= |f|
    ensures SerializeEntries(f[..n]) <= SerializeEntries(f)
    decreases |f|
  {
    if n == |f| {
      assert f[..n] == f;
    } else {
      var last := |f| - 1;
      EntriesSnoc(f);
      hide SerializeEntries;
      EntriesPrefix(f[..last], n);
      assert f[..last][..n] == f[..n];
    }
  }

  lemma PrefixPlus(a: string, b: string, c: string)
    ensures b <= c ==> a + b <= a + c
    ensures a <= a + b
    ensures b <= c ==> b <= c + a
  {
  }

  lemma HeadSame(p: seq<Entry>, f: seq<Entry>)
    requires p != [] && |p| <= |f| && p[..|p| - 1] == f[..|p| - 1] && p[|p| - 1].key == f[|p| - 1].key
    ensures Head(p) == Head(f[..|p|])
  {
    var g := f[..|p|];
    assert g[..|p| - 1] == p[..|p| - 1];
  }

  /** What streams of the last value begins what streams of its extension, and its whole text. */
  function Tail(e: Entry, keys: Option<set<string>>): string {
    if e.value.JStr? && Streams(keys, e.key) then "\"" + Escape(e.value.text) else ""
  }

  lemma TailGrows(p: Entry, f: Entry, keys: Option<set<string>>)
    requires p.key == f.key
    requires p.value.JStr? && Streams(keys, p.key) ==> f.value.JStr? && p.value.text <= f.value.text
    ensures Tail(p, keys) <= Tail(f, keys) && Tail(p, keys) <= Serialize(f.value)
  {
    if p.value.JStr? && Streams(keys, p.key) {
      EscapePrefix(p.value.text, f.value.text);
      StringIs(f.value);
      hide Escape;
      PrefixPlus("\"", Escape(p.value.text), Escape(f.value.text));
      assert Quote(f.value.text) == "\"" + Escape(f.value.text) + "\"";
    }
  }

  lemma SafeIsTail(p: seq<Entry>, keys: Option<set<string>>)
    requires p != []
    ensures SafeForm(p, keys) == "{" + Head(p) + Tail(p[|p| - 1], keys)
  {
  }

  lemma WholeIs(g: seq<Entry>)
    requires g != []
    ensures "{" + Head(g) + Serialize(g[|g| - 1].value) == "{" + SerializeEntries(g)
  {
    hide Serialize, SerializeEntries, KeyPart;
    EntriesSnoc(g);
    var last := |g| - 1;
    Associate("{", SerializeEntries(g[..last]), KeyPart(g[last].key, last == 0), Serialize(g[last].value));
  }

  lemma Associate(a: string, b: string, c: string, d: string)
    ensures a + (b + c) + d == a + (b + (c + d))
  {
  }

  lemma EntriesInHead(f: seq<Entry>, n: nat)
    requires n < |f|
    ensures SerializeEntries(f[..n]) <= Head(f)
  {
    hide SerializeEntries, KeyPart;
    var last := |f| - 1;
    EntriesPrefix(f[..last], n);
    assert f[..last][..n] == f[..n];
    PrefixPlus(KeyPart(f[last].key, last == 0), SerializeEntries(f[..n]), SerializeEntries(f[..last]));
  }

  /** The text up to the n-th value is in the text of every longer object. */
  lemma WholeInLonger(f: seq<Entry>, n: nat)
    requires 0 < n <= |f|
    ensures "{" + Head(f[..n]) + Serialize(f[n - 1].value) <= "{" + SerializeEntries(f)
    ensures n < |f| ==> "{" + Head(f[..n]) + Serialize(f[n - 1].value) <= "{" + Head(f)
  {
    hide Serialize, SerializeEntries, Head;
    var g := f[..n];
    WholeIs(g);
    EntriesPrefix(f, n);
    PrefixPlus("{", SerializeEntries(g), SerializeEntries(f));
    if n < |f| {
      EntriesInHead(f, n);
      PrefixPlus("{", SerializeEntries(g), Head(f));
    }
  }

  lemma Chain(a: string, b: string, c: string)
    requires a <= b && b <= c
    ensures a <= c
  {
  }

  /** The safe prefix of a partial object begins the whole text, and the safe prefix, of every object
      that extends it. */
  lemma SafeStays(p: seq<Entry>, f: seq<Entry>, keys: Option<set<string>>)
    requires Extends(p, f, keys)
    ensures SafeForm(p, keys) <= Serialize(JObj(f)) && SafeForm(p, keys) <= SafeForm(f, keys)
  {
    hide Serialize, SerializeEntries, Head, Tail, SafeForm;
    if p == [] {
      EmptyForm(keys);
    } else {
      var n := |p|;
      HeadSame(p, f);
      SafeIsTail(p, keys);
      SafeIsTail(f, keys);
      TailGrows(p[n - 1], f[n - 1], keys);
      WholeInLonger(f, n);
      ObjectIs(f);
      var front := "{" + Head(f[..n]);
      PrefixPlus(front, Tail(p[n - 1], keys), Serialize(f[n - 1].value));
      Chain(SafeForm(p, keys), front + Serialize(f[n - 1].value), "{" + SerializeEntries(f));
      PrefixPlus("}", "{" + SerializeEntries(f), "{" + SerializeEntries(f));
      if n < |f| {
        Chain(SafeForm(p, keys), front + Serialize(f[n - 1].value), "{" + Head(f));
      } else {
        assert f[..n] == f;
        PrefixPlus(front, Tail(p[n - 1], keys), Tail(f[n - 1], keys));
      }
    }
  }

  lemma EmptyForm(keys: Option<set<string>>)
    ensures SafeForm([], keys) == ""
  {
  }

  /** All objects that extend this one begin like this. */
  ghost predicate Sure(s: string, p: seq<Entry>, keys: Option<set<string>>) {
    forall f: seq<Entry> :: Extends(p, f, keys) && AllWellFormed(f) ==> s <= Serialize(JObj(f))
  }

  function WithLast(p: seq<Entry>, value: Json): seq<Entry>
    requires p != []
  {
    p[..|p| - 1] + [Entry(p[|p| - 1].key, value)]
  }

  lemma WithLastText(p: seq<Entry>, value: Json)
    requires p != []
    ensures Serialize(JObj(WithLast(p, value))) == "{" + Head(p) + Serialize(value) + "}"
  {
    hide Serialize, Head;
    var f := WithLast(p, value);
    assert f[..|f| - 1] == p[..|p| - 1];
    HeadSame(p, f);
    assert f[..|p|] == f;
    ObjectText(f);
  }

  lemma WithLastExtends(p: seq<Entry>, value: Json, keys: Option<set<string>>)
    requires p != [] && AllWellFormed(p) && WellFormed(value)
    requires p[|p| - 1].value.JStr? && Streams(keys, p[|p| - 1].key) ==>
               value.JStr? && p[|p| - 1].value.text <= value.text
    ensures Extends(p, WithLast(p, value), keys) && AllWellFormed(WithLast(p, value))
  {
    assert WithLast(p, value)[..|p| - 1] == p[..|p| - 1];
  }

  function CharAt(s: string, i: nat): Option<char> {
    if i < |s| then Some(s[i]) else None
  }

  lemma CharOfPrefix(s: string, x: string, i: nat)
    requires s <= x
    ensures CharAt(s, i).Some? ==> CharAt(s, i) == CharAt(x, i)
  {
  }

  /** Two texts that differ right behind a common part have no longer one in common. */
  lemma Diverge(s: string, common: string, a: string, b: string)
    requires s <= common + a && s <= common + b && a != "" && b != "" && a[0] != b[0]
    ensures s <= common
  {
    var x, y := common + a, common + b;
    assert CharAt(x, |common|) == Some(a[0]) && CharAt(y, |common|) == Some(b[0]);
    CharOfPrefix(s, x, |common|);
    CharOfPrefix(s, y, |common|);
    assert x[..|common|] == common;
  }

  /** The safe prefix is all that is sure: it begins the text of every object that extends this one, and whatever
      else does is part of it. (Of an object without entries nothing is taken to be safe, not even its brace.) */
  lemma SafeIsAllThatIsSure(p: seq<Entry>, keys: Option<set<string>>, s: string)
    requires p != [] && AllWellFormed(p)
    ensures Sure(s, p, keys) <==> s <= SafeForm(p, keys)
  {
    if s <= SafeForm(p, keys) {
      forall f: seq<Entry> | Extends(p, f, keys) && AllWellFormed(f) ensures s <= Serialize(JObj(f)) {
        SafeStays(p, f, keys);
        Chain(s, SafeForm(p, keys), Serialize(JObj(f)));
      }
    }
    if Sure(s, p, keys) {
      var last := p[|p| - 1];
      if last.value.JStr? && Streams(keys, last.key) {
        SureOfString(p, keys, s);
      } else {
        SureOfOther(p, keys, s);
      }
    }
  }

  lemma SureOfOther(p: seq<Entry>, keys: Option<set<string>>, s: string)
    requires p != [] && AllWellFormed(p) && Sure(s, p, keys)
    requires !(p[|p| - 1].value.JStr? && Streams(keys, p[|p| - 1].key))
    ensures s <= SafeForm(p, keys)
  {
    var number, text := JAtom("1"), JStr("");
    WithLastExtends(p, number, keys);
    WithLastExtends(p, text, keys);
    WithLastText(p, number);
    WithLastText(p, text);
    StringIs(text);
    hide Serialize, Head;
    var front := "{" + Head(p);
    assert Serialize(number) == "1" by {
      AtomIs("1");
    }
    assert Escape("") == "";
    assert front + "1" + "}" == front + "1}";
    assert front + "\"\"" + "}" == front + "\"\"}";
    Diverge(s, front, "1}", "\"\"}");
    SafeIsTail(p, keys);
    assert front + "" == front;
  }

  lemma AtomIs(literal: string)
    ensures Serialize(JAtom(literal)) == literal
  {
  }

  lemma SureOfString(p: seq<Entry>, keys: Option<set<string>>, s: string)
    requires p != [] && AllWellFormed(p) && Sure(s, p, keys)
    requires p[|p| - 1].value.JStr? && Streams(keys, p[|p| - 1].key)
    ensures s <= SafeForm(p, keys)
  {
    hide Serialize, Head, Escape;
    var t := p[|p| - 1].value.text;
    var more := t + "a";
    WithLastExtends(p, JStr(t), keys);
    WithLastExtends(p, JStr(more), keys);
    WithLastText(p, JStr(t));
    WithLastText(p, JStr(more));
    StringText(t);
    StringText(more);
    EscapeMore(t);
    SafeIsTail(p, keys);
    EndsOf("{" + Head(p), Escape(t));
    hide Extends, AllWellFormed, SafeForm;
    Diverge(s, "{" + Head(p) + ("\"" + Escape(t)), "\"}", "a\"}");
  }

  lemma StringText(t: string)
    ensures Serialize(JStr(t)) == "\"" + Escape(t) + "\""
  {
  }

  lemma EscapeMore(t: string)
    ensures Escape(t + "a") == Escape(t) + "a"
  {
    assert (t + "a")[..|t|] == t;
  }

  lemma EndsOf(front: string, escaped: string)
    ensures front + ("\"" + escaped + "\"") + "}" == front + ("\"" + escaped) + "\"}"
    ensures front + ("\"" + (escaped + "a") + "\"") + "}" == front + ("\"" + escaped) + "a\"}"
  {
  }

  /** The text streamed once a new partial conversion is in: its safe prefix, if that extends what was
      streamed, else what was streamed. */
  function Advance(streamed: string, current: string, keys: Option<set<string>>): (next: string)
    ensures streamed <= next
  {
    var safe := if current == "" then "" else SafePrefix(current, keys);
    if safe != "" && streamed <= safe then safe else streamed
  }

  /** The text streamed once the final conversion is in. */
  function Flushed(streamed: string, final: string): (next: string)
    ensures streamed <= next
  {
    if |final| > |streamed| && streamed <= final then final else streamed
  }

  function Streamed(partials: seq<seq<Entry>>, keys: Option<set<string>>): string {
    if partials == [] then ""
    else
      var last := |partials| - 1;
      Advance(Streamed(partials[..last], keys), Serialize(JObj(partials[last])), keys)
  }

  /** Each object extends the one before it. */
  predicate Growing(partials: seq<seq<Entry>>, keys: Option<set<string>>) {
    && (forall i :: 0 <= i < |partials| ==> AllWellFormed(partials[i]))
    && (forall i :: 0 < i < |partials| ==> Extends(partials[i - 1], partials[i], keys))
  }

  /** While arguments grow, every safe prefix is streamed, all of it. */
  lemma {:induction false} GrowingStreams(partials: seq<seq<Entry>>, keys: Option<set<string>>)
    requires Growing(partials, keys)
    ensures Streamed(partials, keys) == if partials == [] then "" else SafeForm(partials[|partials| - 1], keys)
  {
    hide Serialize, SafePrefix, SafeForm, Extends, AllWellFormed;
    if partials != [] {
      var last := |partials| - 1;
      GrowingStreams(partials[..last], keys);
      SafePrefixForm(partials[last], keys);
      ObjectNotEmpty(partials[last]);
      if last > 0 {
        assert partials[..last][last - 1] == partials[last - 1];
        SafeStays(partials[last - 1], partials[last], keys);
      }
    }
  }

  lemma ObjectNotEmpty(entries: seq<Entry>)
    ensures |Serialize(JObj(entries))| >= 2
  {
    ObjectIs(entries);
  }

  /** For arguments that grow to a final object, the text streamed is that object's, complete. */
  lemma StreamIsFinal(partials: seq<seq<Entry>>, final: seq<Entry>, keys: Option<set<string>>)
    requires Growing(partials + [final], keys)
    ensures Flushed(Streamed(partials, keys), Serialize(JObj(final))) == Serialize(JObj(final))
  {
    hide Serialize, SafePrefix, SafeForm, Extends, AllWellFormed;
    var all := partials + [final];
    forall i | 0 <= i < |partials|
      ensures AllWellFormed(partials[i]) && (i > 0 ==> Extends(partials[i - 1], partials[i], keys))
    {
      assert AllWellFormed(all[i]) && (i > 0 ==> Extends(all[i - 1], all[i], keys));
    }
    GrowingStreams(partials, keys);
    if partials != [] {
      var last := |partials| - 1;
      assert Extends(all[last], all[last + 1], keys);
      SafeStays(partials[last], final, keys);
    } else {
      ObjectNotEmpty(final);
    }
    SamePrefix(Streamed(partials, keys), Serialize(JObj(final)));
  }

  lemma SamePrefix(a: string, b: string)
    requires a <= b
    ensures |a| == |b| ==> a == b
  {
  }

  /** What the parser engine knows apart from the slot: the argument converter with its type fixes,
      which tool names it accepts, the name found in raw arguments, which keys' strings stream, and
      which characters of a chunk make a conversion worthwhile. */
  datatype Setup = Setup(
    convert: (string, string, bool) -> Option<string>,
    accepts: string -> bool,
    extract: string -> Option<string>,
    keysOf: string -> Option<set<string>>,
    streams: bool,
    structural: Option<set<char>>)
  {
    /** Whether the arguments are converted again when this chunk has come in. */
    predicate Converts(chunk: string) {
      streams && (structural.Some? ==> exists i :: 0 <= i < |chunk| && chunk[i] in structural.value)
    }

    function Converted(name: string, args: string, partial: bool): string {
      var text := convert(name, args, partial);
      if text.Some? then text.value else ""
    }
  }

  /** The text streamed once a chunk has come in, of a call whose name has been sent. */
  function Grown(setup: Setup, name: string, keys: Option<set<string>>, streamed: string, args: string, chunk: string)
    : (next: string)
    ensures streamed <= next
  {
    if chunk != "" && setup.Converts(chunk) then Advance(streamed, setup.Converted(name, args + chunk, true), keys)
    else streamed
  }

  function Joined(chunks: seq<string>): string {
    if chunks == [] then "" else Joined(chunks[..|chunks| - 1]) + chunks[|chunks| - 1]
  }

  /** The text streamed by a run of chunks on top of the arguments so far. */
  function StreamedBy(setup: Setup, name: string, keys: Option<set<string>>, args: string, chunks: seq<string>)
    : string
  {
    if chunks == [] then ""
    else
      var last := |chunks| - 1;
      Grown(setup, name, keys, StreamedBy(setup, name, keys, args, chunks[..last]), args + Joined(chunks[..last]),
            chunks[last])
  }

  /** The conversions of a call's arguments as they come in chunk by chunk are these objects, each extending the
      one before, the complete conversion the last of all. */
  predicate GrowsTo(setup: Setup, name: string, keys: Option<set<string>>, args: string, chunks: seq<string>,
                    partials: seq<seq<Entry>>, final: seq<Entry>)
  {
    && |partials| == |chunks| && Growing(partials + [final], keys)
    && (forall i :: 0 <= i < |chunks| ==>
          setup.Converted(name, args + Joined(chunks[..i + 1]), true) == Serialize(JObj(partials[i])))
    && setup.Converted(name, args + Joined(chunks), false) == Serialize(JObj(final))
  }

  /** What has been streamed after n chunks is part of the safe prefix then, also if chunks were passed over. */
  lemma {:induction false} StreamedIsSafe(setup: Setup, name: string, keys: Option<set<string>>, args: string,
                                          chunks: seq<string>, partials: seq<seq<Entry>>, final: seq<Entry>, n: nat)
    requires GrowsTo(setup, name, keys, args, chunks, partials, final) && n <= |chunks|
    ensures StreamedBy(setup, name, keys, args, chunks[..n]) <=
            if n == 0 then "" else SafeForm(partials[n - 1], keys)
  {
    hide Serialize, SafePrefix, SafeForm, Extends, AllWellFormed;
    if n > 0 {
      var streamed, all := StreamedBy(setup, name, keys, args, chunks[..n - 1]), partials + [final];
      StreamedIsSafe(setup, name, keys, args, chunks, partials, final, n - 1);
      assert chunks[..n][..n - 1] == chunks[..n - 1] && chunks[..n][n - 1] == chunks[n - 1];
      assert all[n - 1] == partials[n - 1] && AllWellFormed(all[n - 1]);
      if n > 1 {
        assert all[n - 2] == partials[n - 2] && Extends(all[n - 2], all[n - 1], keys);
        SafeStays(partials[n - 2], partials[n - 1], keys);
        Chain(streamed, SafeForm(partials[n - 2], keys), SafeForm(partials[n - 1], keys));
      }
      assert Joined(chunks[..n]) == Joined(chunks[..n - 1]) + chunks[n - 1];
      SameText(args, Joined(chunks[..n - 1]), chunks[n - 1]);
      SafePrefixForm(partials[n - 1], keys);
    }
  }

  /** A chunk that makes a conversion worthwhile, or any where that is not asked, streams all that is safe by then. */
  lemma ChunkStreamsAll(setup: Setup, name: string, keys: Option<set<string>>, args: string, chunks: seq<string>,
                        partials: seq<seq<Entry>>, final: seq<Entry>, n: nat)
    requires GrowsTo(setup, name, keys, args, chunks, partials, final) && 0 < n <= |chunks| && partials[n - 1] != []
    requires setup.streams && chunks[n - 1] != ""
    requires setup.structural.None? || exists c :: c in chunks[n - 1] && c in setup.structural.value
    ensures StreamedBy(setup, name, keys, args, chunks[..n]) == SafeForm(partials[n - 1], keys)
  {
    hide Serialize, SafePrefix, SafeForm, Extends, AllWellFormed;
    var all := partials + [final];
    StreamedIsSafe(setup, name, keys, args, chunks, partials, final, n);
    StreamedIsSafe(setup, name, keys, args, chunks, partials, final, n - 1);
    assert chunks[..n][..n - 1] == chunks[..n - 1] && chunks[..n][n - 1] == chunks[n - 1];
    assert all[n - 1] == partials[n - 1] && AllWellFormed(all[n - 1]);
    var streamed := StreamedBy(setup, name, keys, args, chunks[..n - 1]);
    if n > 1 {
      assert all[n - 2] == partials[n - 2] && Extends(all[n - 2], all[n - 1], keys);
      SafeStays(partials[n - 2], partials[n - 1], keys);
      Chain(streamed, SafeForm(partials[n - 2], keys), SafeForm(partials[n - 1], keys));
    }
    assert Joined(chunks[..n]) == Joined(chunks[..n - 1]) + chunks[n - 1];
    SameText(args, Joined(chunks[..n - 1]), chunks[n - 1]);
    SafePrefixForm(partials[n - 1], keys);
    ObjectNotEmpty(partials[n - 1]);
    FormNotEmpty(partials[n - 1], keys);
  }

  lemma FormNotEmpty(entries: seq<Entry>, keys: Option<set<string>>)
    requires entries != []
    ensures SafeForm(entries, keys) != ""
  {
    hide Head, Escape;
  }

  lemma SameText(a: string, b: string, c: string)
    ensures a + b + c == a + (b + c)
  {
  }

  /** The end of the call completes the final object's text, whichever chunks were passed over. */
  lemma ChunksSendFinal(setup: Setup, name: string, keys: Option<set<string>>, args: string, chunks: seq<string>,
                        partials: seq<seq<Entry>>, final: seq<Entry>)
    requires GrowsTo(setup, name, keys, args, chunks, partials, final)
    ensures Flushed(StreamedBy(setup, name, keys, args, chunks), setup.Converted(name, args + Joined(chunks), false))
         == Serialize(JObj(final))
  {
    hide Serialize, SafePrefix, SafeForm, Extends, AllWellFormed, StreamedBy;
    var n := |chunks|;
    var streamed := StreamedBy(setup, name, keys, args, chunks);
    assert chunks[..n] == chunks;
    StreamedIsSafe(setup, name, keys, args, chunks, partials, final, n);
    if n > 0 {
      var all := partials + [final];
      assert Extends(all[n - 1], all[n], keys);
      SafeStays(partials[n - 1], final, keys);
      Chain(streamed, SafeForm(partials[n - 1], keys), Serialize(JObj(final)));
    } else {
      ObjectNotEmpty(final);
    }
    SamePrefix(streamed, Serialize(JObj(final)));
  }

  datatype Delta = Delta(name: Option<string>, arguments: Option<string>)

  function Sent(d: Option<Delta>): string {
    if d.Some? && d.value.arguments.Some? then d.value.arguments.value else ""
  }

  class ToolCallSlot {
    const setup: Setup
    var name: string
    var args: string
    var nameSent: bool
    var stringKeys: Option<set<string>>
    var streamedJson: string
    /** The argument text sent so far, and whether the call's end has been seen. */
    ghost var sent: string
    ghost var ended: bool

    /** The name the end of the call would go by. */
    function Candidate(): string
      reads this
    {
      if name != "" then name else if setup.extract(args).Some? then setup.extract(args).value else ""
    }

    predicate Accepts(candidate: string) {
      candidate != "" && setup.accepts(candidate)
    }

    /** What has been sent is what counts as streamed, once the name has been sent; before, nothing is. */
    ghost predicate Valid()
      reads this
    {
      && (nameSent ==> sent == streamedJson)
      && (!nameSent ==> sent == "" && (if ended then !Accepts(Candidate()) else streamedJson == ""))
    }

    constructor (setup: Setup)
      ensures Valid() && !nameSent && !ended && streamedJson == ""
    {
      this.setup := setup;
      name, args, nameSent, stringKeys, streamedJson, sent, ended := "", "", false, None, "", "", false;
    }

    method HandleToolName(value: string)
      requires Valid() && !ended
      modifies this`name
      ensures Valid() && name == old(name) + value
    {
      name := name + value;
    }

    /** Send the name, if it is known and accepted. */
    method EmitNameDelta(candidate: Option<string>) returns (delta: Option<Delta>)
      requires Valid() && !nameSent && !ended
      modifies this`name, this`nameSent, this`stringKeys
      ensures Valid() && Sent(delta) == ""
      ensures nameSent <==> candidate.Some? && candidate.value != "" && setup.accepts(candidate.value)
      ensures nameSent ==> delta == Some(Delta(candidate, None)) && name == candidate.value
    {
      if candidate.None? || !Accepts(candidate.value) {
        return None;
      }
      name, nameSent, stringKeys := candidate.value, true, setup.keysOf(candidate.value);
      delta := Some(Delta(Some(name), None));
    }

    /** The part of the arguments that a chunk makes safe to send. */
    method ComputeArgDelta(chunk: string) returns (diff: string)
      modifies this`streamedJson
      ensures streamedJson == old(streamedJson) + diff
      ensures streamedJson == if setup.Converts(chunk) then Advance(old(streamedJson), Current(), stringKeys)
                              else old(streamedJson)
    {
      diff := "";
      if !setup.streams {
        return;
      }
      if setup.structural.Some? && forall i :: 0 <= i < |chunk| ==> chunk[i] !in setup.structural.value {
        return;
      }
      var current := setup.convert(name, args, true);
      if current.None? || current.value == "" {
        return;
      }
      var safe := SafeArgPrefix(current.value, stringKeys);
      if safe == "" || safe == streamedJson || !(streamedJson <= safe) {
        return;
      }
      diff := safe[|streamedJson|..];
      streamedJson := safe;
    }

    function Current(): string
      reads this
    {
      setup.Converted(name, args, true)
    }

    method HandleArgChunk(value: string) returns (delta: Option<Delta>)
      requires Valid() && !ended
      modifies this
      ensures Valid() && !ended && sent == old(sent) + Sent(delta)
      ensures old(streamedJson) <= streamedJson && args == old(args) + value
      ensures old(nameSent) ==> nameSent && name == old(name) && stringKeys == old(stringKeys)
      ensures streamedJson == if old(nameSent) then Grown(setup, name, stringKeys, old(streamedJson), old(args), value)
                              else old(streamedJson)
      ensures !old(nameSent) ==>
                var found := setup.extract(args);
                var candidate := if old(name) != "" then old(name)
                                 else if value != "" && found.Some? then found.value else "";
                && (nameSent <==> candidate != "" && setup.accepts(candidate))
                && (nameSent ==> name == candidate && delta == Some(Delta(Some(candidate), None)))
    {
      args := args + value;
      delta := None;
      if !nameSent {
        if name != "" {
          delta := EmitNameDelta(Some(name));
        } else if value != "" {
          delta := EmitNameDelta(setup.extract(args));
        }
      } else if value != "" {
        var diff := ComputeArgDelta(value);
        sent := sent + diff;
        if diff != "" {
          delta := Some(Delta(None, Some(diff)));
        }
      }
    }

    /** What the final conversion adds to the text streamed. */
    method FlushArgConverter() returns (diff: string)
      modifies this`streamedJson
      ensures streamedJson == old(streamedJson) + diff
      ensures streamedJson == Flushed(old(streamedJson), Final())
    {
      var final := setup.convert(name, args, false);
      if final.None? || |final.value| <= |streamedJson| || !(streamedJson <= final.value) {
        return "";
      }
      diff := final.value[|streamedJson|..];
      streamedJson := final.value;
    }

    function Final(): string
      reads this
    {
      setup.Converted(name, args, false)
    }

    /** The end of the call, which may be repeated: send the rest of the arguments, and the name if that
        is still to be sent. */
    method HandleToolEnd() returns (delta: Option<Delta>)
      requires Valid()
      modifies this
      ensures Valid() && ended && sent == old(sent) + Sent(delta)
      ensures old(streamedJson) <= streamedJson && (old(nameSent) ==> nameSent)
      ensures streamedJson == Flushed(old(streamedJson), old(Final()))
      ensures nameSent <==> old(nameSent) || Accepts(old(Candidate()))
      ensures !old(nameSent) ==>
                var found := setup.extract(args);
                var candidate := if old(name) != "" then old(name) else if found.Some? then found.value else "";
                && (nameSent <==> candidate != "" && setup.accepts(candidate))
                && (nameSent ==> name == candidate && delta.Some? && delta.value.name == Some(candidate))
    {
      var remaining := FlushArgConverter();
      delta := None;
      if nameSent {
        if remaining != "" {
          delta := Some(Delta(None, Some(remaining)));
        }
        sent := sent + remaining;
      } else {
        var candidate := Candidate();
        if Accepts(candidate) {
          name, nameSent, stringKeys := candidate, true, setup.keysOf(candidate);
          delta := Some(Delta(Some(candidate), Some(remaining)));
          sent := remaining;
        }
      }
      ended := true;
    }

    /** The argument events of a call whose name has been sent, in order, and its end: the deltas sent for it
        add up to the final object's text. */
    method HandleArguments(chunks: seq<string>, ghost partials: seq<seq<Entry>>, ghost final: seq<Entry>)
        returns (deltas: seq<Option<Delta>>)
      requires Valid() && !ended && nameSent && streamedJson == ""
      requires GrowsTo(setup, name, stringKeys, args, chunks, partials, final)
      modifies this
      ensures Valid() && ended && sent == SentBy(deltas) == Serialize(JObj(final))
    {
      hide Serialize, GrowsTo, Grown;
      deltas := [];
      ghost var name0, keys, args0 := name, stringKeys, args;
      assert chunks[..0] == [] && args + "" == args;
      for i := 0 to |chunks|
        invariant Valid() && !ended && nameSent && name == name0 && stringKeys == keys
        invariant args == args0 + Joined(chunks[..i])
        invariant streamedJson == StreamedBy(setup, name, keys, args0, chunks[..i]) && sent == SentBy(deltas)
      {
        assert chunks[..i + 1][..i] == chunks[..i];
        SameText(args0, Joined(chunks[..i]), chunks[i]);
        var delta := HandleArgChunk(chunks[i]);
        assert (deltas + [delta])[..|deltas|] == deltas;
        deltas := deltas + [delta];
      }
      assert chunks[..|chunks|] == chunks;
      ChunksSendFinal(setup, name, keys, args0, chunks, partials, final);
      var delta := HandleToolEnd();
      assert (deltas + [delta])[..|deltas|] == deltas;
      deltas := deltas + [delta];
    }
  }

  /** The argument text of some deltas. */
  function SentBy(deltas: seq<Option<Delta>>): string {
    if deltas == [] then "" else SentBy(deltas[..|deltas| - 1]) + Sent(deltas[|deltas| - 1])
  }
}
