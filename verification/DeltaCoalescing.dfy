/** Tool-call deltas of one output chunk, merged into one per call.

    A client keeps, per index, the first id, type and name it is given and appends all arguments; merging
    must leave what it ends up with unchanged.
 */
module DeltaCoalescing {
  import opened Wrappers

  datatype FunctionDelta = FunctionDelta(name: Option<string>, arguments: Option<string>)

  datatype Delta = Delta(index: int, id: Option<string>, kind: Option<string>, function_: Option<FunctionDelta>) {
    function Name(): Option<string> {
      if function_.Some? then function_.value.name else None
    }

    function Arguments(): Option<string> {
      if function_.Some? then function_.value.arguments else None
    }
  }

  /** The earlier of two optional values. */
  function First(a: Option<string>, b: Option<string>): Option<string> {
    if a.Some? then a else b
  }

  /** Both texts, one behind the other; no text at all if neither is there. */
  function Append(a: Option<string>, b: Option<string>): Option<string> {
    if a.None? then b else if b.None? then a else Some(a.value + b.value)
  }

  /** What a client holds for one call. */
  datatype Call = Call(id: Option<string>, kind: Option<string>, name: Option<string>, arguments: Option<string>) {
    function Plus(that: Call): Call {
      Call(First(id, that.id), First(kind, that.kind), First(name, that.name), Append(arguments, that.arguments))
    }
  }

  function Empty(): Call {
    Call(None, None, None, None)
  }

  function Told(d: Delta): Call {
    Call(d.id, d.kind, d.Name(), d.Arguments())
  }

  /** What a client knows of call `index` after these deltas. */
  function Received(deltas: seq<Delta>, index: int): Call {
    if deltas == [] then Empty()
    else
      var d, before := deltas[|deltas| - 1], Received(deltas[..|deltas| - 1], index);
      if d.index == index then before.Plus(Told(d)) else before
  }

  /** The argument texts given for a call, one behind the other. */
  function ArgumentsFor(deltas: seq<Delta>, index: int): string {
    if deltas == [] then ""
    else
      var d := deltas[0];
      (if d.index == index && d.Arguments().Some? then d.Arguments().value else "") + ArgumentsFor(deltas[1..], index)
  }

  /** The first name given for a call. */
  function NameFor(deltas: seq<Delta>, index: int): Option<string> {
    if deltas == [] then None
    else if deltas[0].index == index && deltas[0].Name().Some? then deltas[0].Name()
    else NameFor(deltas[1..], index)
  }

  lemma {:induction false} ForSnoc(deltas: seq<Delta>, d: Delta, index: int)
    ensures ArgumentsFor(deltas + [d], index) ==
              ArgumentsFor(deltas, index) +
              if d.index == index && d.Arguments().Some? then d.Arguments().value else ""
    ensures NameFor(deltas + [d], index) ==
              if NameFor(deltas, index).Some? then NameFor(deltas, index)
              else if d.index == index then d.Name() else None
    decreases |deltas|
  {
    var all := deltas + [d];
    if deltas == [] {
      assert all[1..] == [] && all[0] == d;
    } else {
      assert all[1..] == deltas[1..] + [d] && all[0] == deltas[0];
      ForSnoc(deltas[1..], d, index);
    }
  }

  /** A client ends with the first name and with all argument texts in the order they came. */
  lemma {:induction false} ReceivedInOrder(deltas: seq<Delta>, index: int)
    ensures Received(deltas, index).name == NameFor(deltas, index)
    ensures var arguments := Received(deltas, index).arguments;
            (if arguments.Some? then arguments.value else "") == ArgumentsFor(deltas, index)
    decreases |deltas|
  {
    if deltas != [] {
      var n := |deltas| - 1;
      ReceivedInOrder(deltas[..n], index);
      ForSnoc(deltas[..n], deltas[n], index);
      assert deltas[..n] + [deltas[n]] == deltas;
      assert ArgumentsFor(deltas[..n], index) + "" == ArgumentsFor(deltas[..n], index);
    }
  }

  /** The indices in the order they first appear. */
  function Seen(deltas: seq<Delta>): seq<int> {
    if deltas == [] then []
    else
      var d, before := deltas[|deltas| - 1], Seen(deltas[..|deltas| - 1]);
      if d.index in before then before else before + [d.index]
  }

  /** Adding a delta to the one kept for its index. */
  method MergeInto(existing: Delta, d: Delta) returns (merged: Delta)
    ensures merged.index == existing.index && Told(merged) == Told(existing).Plus(Told(d))
  {
    merged := existing;
    if d.id.Some? && merged.id.None? {
      merged := merged.(id := d.id);
    }
    if d.kind.Some? && merged.kind.None? {
      merged := merged.(kind := d.kind);
    }
    if d.function_.Some? {
      if merged.function_.None? {
        merged := merged.(function_ := d.function_);
      } else {
        var f := merged.function_.value;
        if d.function_.value.name.Some? && f.name.None? {
          f := f.(name := d.function_.value.name);
        }
        if d.function_.value.arguments.Some? {
          if f.arguments.None? {
            f := f.(arguments := d.function_.value.arguments);
          } else {
            f := f.(arguments := Some(f.arguments.value + d.function_.value.arguments.value));
          }
        }
        merged := merged.(function_ := Some(f));
      }
    }
  }

  /** What is kept so far: one delta per index seen, telling what its deltas told together. */
  ghost predicate Kept(merged: map<int, Delta>, order: seq<int>, deltas: seq<Delta>) {
    && order == Seen(deltas) && merged.Keys == set k | k in order
    && (forall k :: k in merged ==> merged[k].index == k && Told(merged[k]) == Received(deltas, k))
  }

  lemma KeptNothing(deltas: seq<Delta>)
    ensures Kept(map[], [], deltas[..0])
  {
  }

  lemma KeptNext(merged: map<int, Delta>, order: seq<int>, deltas: seq<Delta>, n: nat, now: Delta)
    requires n < |deltas| && Kept(merged, order, deltas[..n]) && now.index == deltas[n].index
    requires Told(now) == if now.index in merged then Told(merged[now.index]).Plus(Told(deltas[n])) else Told(deltas[n])
    ensures Kept(merged[now.index := now], if now.index in merged then order else order + [now.index], deltas[..n + 1])
  {
    assert deltas[..n + 1][..n] == deltas[..n];
    if now.index !in merged {
      NotSeen(deltas[..n], now.index);
    }
  }

  /** Nothing is known of an index that has not been seen. */
  lemma {:induction false} NotSeen(deltas: seq<Delta>, index: int)
    requires index !in Seen(deltas)
    ensures Received(deltas, index) == Empty()
  {
    if deltas != [] {
      NotSeen(deltas[..|deltas| - 1], index);
    }
  }

  lemma {:induction false} SeenOnce(deltas: seq<Delta>)
    ensures |Seen(deltas)| <= |deltas|
        && forall i, j :: 0 <= i < j < |Seen(deltas)| ==> Seen(deltas)[i] != Seen(deltas)[j]
  {
    if deltas != [] {
      SeenOnce(deltas[..|deltas| - 1]);
    }
  }

  /** As many indices as deltas: every delta stands alone. */
  lemma {:induction false} AllAlone(deltas: seq<Delta>)
    requires |Seen(deltas)| == |deltas|
    ensures forall i :: 0 <= i < |deltas| ==> deltas[i].index == Seen(deltas)[i]
    ensures forall i :: 0 <= i < |deltas| ==> Received(deltas, deltas[i].index) == Told(deltas[i])
  {
    if deltas != [] {
      var n := |deltas| - 1;
      SeenOnce(deltas[..n]);
      AllAlone(deltas[..n]);
      NotSeen(deltas[..n], deltas[n].index);
      assert forall i :: 0 <= i < n ==> deltas[..n][i] == deltas[i];
    }
  }

  /** One delta per index, in the order the indices first appear, telling what its deltas told together. */
  ghost predicate Merged(deltas: seq<Delta>, result: seq<Delta>) {
    && |result| == |Seen(deltas)|
    && forall i :: 0 <= i < |result| ==>
         result[i].index == Seen(deltas)[i] && Told(result[i]) == Received(deltas, result[i].index)
  }

  method Coalesce(deltas: seq<Delta>) returns (result: seq<Delta>)
    ensures Merged(deltas, result)
    ensures |Seen(deltas)| == |deltas| ==> result == deltas
  {
    hide Received, Seen, Told;
    var merged: map<int, Delta>, order: seq<int> := map[], [];
    KeptNothing(deltas);
    for n := 0 to |deltas|
      invariant Kept(merged, order, deltas[..n])
    {
      var d := deltas[n];
      var now := d;
      if d.index in merged {
        now := MergeInto(merged[d.index], d);
      }
      KeptNext(merged, order, deltas, n, now);
      order := if d.index in merged then order else order + [d.index];
      merged := merged[d.index := now];
    }
    assert deltas[..|deltas|] == deltas;
    if |order| == |deltas| {
      AllAlone(deltas);
      return deltas;
    }
    result := [];
    for i := 0 to |order|
      invariant |result| == i && forall p :: 0 <= p < i ==>
                  result[p].index == order[p] && Told(result[p]) == Received(deltas, order[p])
    {
      assert order[i] in merged;
      result := result + [merged[order[i]]];
    }
  }

  /** A client that is given the merged deltas ends up with the same calls, whatever it was given before. */
  lemma MergedTellsTheSame(deltas: seq<Delta>, result: seq<Delta>, before: seq<Delta>, index: int)
    requires Merged(deltas, result)
    ensures Received(before + result, index) == Received(before + deltas, index)
  {
    ReceivedSplits(before, result, index);
    ReceivedSplits(before, deltas, index);
    SeenOnce(deltas);
    if index in Seen(deltas) {
      var p :| 0 <= p < |result| && Seen(deltas)[p] == index;
      OnlyOne(result, p, |result|);
      assert result[..|result|] == result;
    } else {
      NoneOf(result, index);
      NotSeen(deltas, index);
    }
  }

  lemma {:induction false} ReceivedSplits(a: seq<Delta>, b: seq<Delta>, index: int)
    ensures Received(a + b, index) == Received(a, index).Plus(Received(b, index))
  {
    if b == [] {
      assert a + b == a;
    } else {
      var n := |b| - 1;
      assert (a + b)[..|a + b| - 1] == a + b[..n];
      ReceivedSplits(a, b[..n], index);
      if b[n].index == index {
        PlusAssociates(Received(a, index), Received(b[..n], index), Told(b[n]));
      }
    }
  }

  lemma PlusAssociates(a: Call, b: Call, c: Call)
    ensures a.Plus(b).Plus(c) == a.Plus(b.Plus(c))
  {
    if a.arguments.Some? && b.arguments.Some? && c.arguments.Some? {
      var x, y, z := a.arguments.value, b.arguments.value, c.arguments.value;
      assert x + y + z == x + (y + z);
    }
  }

  lemma {:induction false} NoneOf(deltas: seq<Delta>, index: int)
    requires forall i :: 0 <= i < |deltas| ==> deltas[i].index != index
    ensures Received(deltas, index) == Empty()
  {
    if deltas != [] {
      NoneOf(deltas[..|deltas| - 1], index);
    }
  }

  lemma {:induction false} OnlyOne(deltas: seq<Delta>, p: nat, n: nat)
    requires p < n <= |deltas|
    requires forall i, j :: 0 <= i < j < |deltas| ==> deltas[i].index != deltas[j].index
    ensures Received(deltas[..n], deltas[p].index) == Told(deltas[p])
    decreases n
  {
    assert deltas[..n][..n - 1] == deltas[..n - 1];
    if p < n - 1 {
      OnlyOne(deltas, p, n - 1);
    } else {
      NoneOf(deltas[..n - 1], deltas[p].index);
    }
  }
}
