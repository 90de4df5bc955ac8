/** Except, the deferred handler every exported helper installs, and
    DoFuncs, which groups a mixed list into calls. A panic is modelled by
    its printed text; a reflected call by the Call it would make. */
module Faults {
  import opened Wrappers
  import opened Variants

  /** What Except is handed for its err parameter: a nil *error (NoSlot), or
      a pointer to the caller's error, nil or not. */
  datatype ErrSlot = NoSlot | Slot(err: Option<string>)

  /** One call DoFuncs makes: a function value and the values after it. */
  datatype Call = Call(fn: Any, args: seq<Any>)

  /** The outcome of Except: the caller's error afterwards and the calls
      made for its trailing funcs. */
  datatype Handled = Handled(slot: ErrSlot, calls: seq<Call>)

  /** The message of an error that replaces a recovered panic. */
  function Recovered(info: string, panicText: string): string {
    "@" + info + ": " + panicText
  }

  /** The message of an error that wraps an error already returned. */
  function Wrapped(info: string, msg: string): string {
    "%" + info + "%" + msg
  }

  /** Except(info, err, funcs...) with the panic it recovers, if any. A
      recovered panic replaces the error with "@info: panic"; otherwise a
      non-nil error becomes "%info%msg"; with no slot nothing is reported.
      The trailing funcs run as DoFuncs would run them. */
  function Except(info: string, slot: ErrSlot, recovered: Option<string>, funcs: seq<Any>): (h: Handled)
    ensures h.slot.NoSlot? <==> slot.NoSlot?
    ensures h.calls == CallGroups(funcs)
    ensures slot.Slot? && recovered.Some? ==> h.slot.err == Some(Recovered(info, recovered.value))
    ensures slot.Slot? && recovered.None? ==>
              h.slot.err == (if slot.err.Some? then Some(Wrapped(info, slot.err.value)) else None)
  {
    var calls := CallGroups(funcs);
    match slot
    case NoSlot => Handled(NoSlot, calls)
    case Slot(err) =>
      if recovered.Some? then Handled(Slot(Some(Recovered(info, recovered.value))), calls)
      else if err.Some? then Handled(Slot(Some(Wrapped(info, err.value))), calls)
      else Handled(slot, calls)
  }

  /** The error a helper returns when it defers Except(info, &err): the
      error its body left in err, or the panic that cut the body short. */
  function Reported(info: string, err: Option<string>, recovered: Option<string>): (r: Option<string>)
    ensures recovered.Some? ==> r == Some(Recovered(info, recovered.value))
    ensures recovered.None? ==> r == (if err.Some? then Some(Wrapped(info, err.value)) else None)
  {
    Except(info, Slot(err), recovered, []).slot.err
  }

  /** The two kinds of message Except writes can be told apart by their
      first character, and a wrapped message gives back the original after
      the "%info%" prefix. */
  lemma ExceptIsReversible(info: string, slot: ErrSlot, recovered: Option<string>, funcs: seq<Any>)
    requires slot.Slot?
    ensures var h := Except(info, slot, recovered, funcs);
            h.slot.err.Some? ==>
              && |h.slot.err.value| > |info| + 1
              && (h.slot.err.value[0] == '@' <==> recovered.Some?)
              && (recovered.None? ==>
                    && h.slot.err.value[..|info| + 2] == "%" + info + "%"
                    && h.slot.err.value[|info| + 2..] == slot.err.value)
  {
    var h := Except(info, slot, recovered, funcs);
    if recovered.None? && slot.err.Some? {
      var w := Wrapped(info, slot.err.value);
      assert h.slot.err.value == w;
      assert w == ("%" + info + "%") + slot.err.value;
    }
  }

  // ---------------------------------------------------------------------
  // DoFuncs

  /** The number of non-function values in items from index i on, up to
      the next function value. */
  function ArgRun(items: seq<Any>, i: nat): (n: nat)
    requires i <= |items|
    ensures i + n <= |items|
    decreases |items| - i
  {
    if i == |items| || items[i].Func? then 0 else 1 + ArgRun(items, i + 1)
  }

  /** The calls DoFuncs makes for items: each function value with the
      values that follow it up to the next function value. Values before
      the first function value are dropped. */
  function CallGroups(items: seq<Any>): seq<Call> {
    GroupsFrom(items, 0)
  }

  /** CallGroups for the part of items from index i on. */
  function GroupsFrom(items: seq<Any>, i: nat): seq<Call>
    requires i <= |items|
    decreases |items| - i
  {
    if i == |items| then []
    else if !items[i].Func? then GroupsFrom(items, i + 1)
    else
      var n := ArgRun(items, i + 1);
      [Call(items[i], items[i + 1..i + 1 + n])] + GroupsFrom(items, i + 1 + n)
  }

  /** The calls still to be made when DoFuncs holds the function fx with the
      arguments gathered so far and items[i..] is still to be scanned. */
  function Pending(fx: Option<Any>, args: seq<Any>, items: seq<Any>, i: nat): seq<Call>
    requires i <= |items|
  {
    match fx
    case None => GroupsFrom(items, i)
    case Some(f) =>
      var n := ArgRun(items, i);
      [Call(f, args + items[i..i + n])] + GroupsFrom(items, i + n)
  }

  /** DoFuncs: scan funcs, calling each function value with the values that
      follow it. A panic inside a call is recovered by RftCall and ignored. */
  method DoFuncs(funcs: seq<Any>) returns (calls: seq<Call>)
    ensures calls == CallGroups(funcs)
  {
    calls := [];
    var fx: Option<Any> := None;
    var args: seq<Any> := [];
    var i := 0;
    while i < |funcs|
      invariant 0 <= i <= |funcs|
      invariant calls + Pending(fx, args, funcs, i) == CallGroups(funcs)
    {
      var one := funcs[i];
      ScanStep(calls, fx, args, funcs, i);
      if one.Func? {
        if fx.Some? {
          calls := calls + [Call(fx.value, args)];
        }
        fx, args := Some(one), [];
      } else {
        args := args + [one];
      }
      i := i + 1;
    }
    PendingEnd(fx, args, funcs);
    if fx.Some? {
      calls := calls + [Call(fx.value, args)];
    }
  }

  /** The end of the DoFuncs scan: only the held function is still to be
      called. */
  lemma PendingEnd(fx: Option<Any>, args: seq<Any>, items: seq<Any>)
    ensures Pending(fx, args, items, |items|) == if fx.Some? then [Call(fx.value, args)] else []
  {
    if fx.Some? {
      assert args + items[|items|..|items|] == args;
    }
  }

  /** One step of the DoFuncs scan, stated on the calls made so far. */
  lemma ScanStep(calls: seq<Call>, fx: Option<Any>, args: seq<Any>, items: seq<Any>, i: nat)
    requires i < |items|
    ensures items[i].Func? ==>
      calls + Pending(fx, args, items, i) ==
        (if fx.Some? then calls + [Call(fx.value, args)] else calls) + Pending(Some(items[i]), [], items, i + 1)
    ensures !items[i].Func? ==>
      calls + Pending(fx, args, items, i) == calls + Pending(fx, args + [items[i]], items, i + 1)
  {
    if items[i].Func? {
      PendingOnFunc(fx, args, items, i);
      var made := if fx.Some? then [Call(fx.value, args)] else [];
      AppendAssoc(calls, made, Pending(Some(items[i]), [], items, i + 1));
    } else {
      PendingOnArg(fx, args, items, i);
    }
  }

  /** Kept as a lemma of its own: stated inline, next to the definitions of
      Pending and GroupsFrom, this step can cost the solver a hundred times
      more. */
  lemma AppendAssoc<T>(a: seq<T>, b: seq<T>, c: seq<T>)
    ensures a + (b + c) == (a + b) + c
  {
  }

  /** A function value met by the scan: the held call, if any, is made,
      and the new function value starts gathering arguments. */
  lemma PendingOnFunc(fx: Option<Any>, args: seq<Any>, items: seq<Any>, i: nat)
    requires i < |items| && items[i].Func?
    ensures Pending(fx, args, items, i) ==
              (if fx.Some? then [Call(fx.value, args)] else []) + Pending(Some(items[i]), [], items, i + 1)
  {
    StartsNewGroup(items, i);
    if fx.Some? {
      assert ArgRun(items, i) == 0;
      assert args + items[i..i] == args;
    }
  }

  /** Pending with a function value just taken up is the grouping of the
      input from that function value on. */
  lemma StartsNewGroup(items: seq<Any>, i: nat)
    requires i < |items| && items[i].Func?
    ensures Pending(Some(items[i]), [], items, i + 1) == GroupsFrom(items, i)
  {
    PendingHeld(items[i], [], items, i + 1);
    assert [] + items[i + 1..i + 1 + ArgRun(items, i + 1)] == items[i + 1..i + 1 + ArgRun(items, i + 1)];
    GroupsFromOfFunc(items, i);
  }

  lemma PendingHeld(f: Any, args: seq<Any>, items: seq<Any>, i: nat)
    requires i <= |items|
    ensures var n := ArgRun(items, i);
            Pending(Some(f), args, items, i) == [Call(f, args + items[i..i + n])] + GroupsFrom(items, i + n)
  {
  }

  lemma GroupsFromOfFunc(items: seq<Any>, i: nat)
    requires i < |items| && items[i].Func?
    ensures var n := ArgRun(items, i + 1);
            GroupsFrom(items, i) == [Call(items[i], items[i + 1..i + 1 + n])] + GroupsFrom(items, i + 1 + n)
  {
  }

  /** A non-function value met by the scan joins the held arguments, or is
      dropped when no function value is held. */
  lemma PendingOnArg(fx: Option<Any>, args: seq<Any>, items: seq<Any>, i: nat)
    requires i < |items| && !items[i].Func?
    ensures Pending(fx, args, items, i) == Pending(fx, args + [items[i]], items, i + 1)
  {
    if fx.Some? {
      var m := ArgRun(items, i + 1);
      assert ArgRun(items, i) == 1 + m;
      assert items[i..i + 1 + m] == [items[i]] + items[i + 1..i + 1 + m];
      assert args + items[i..i + 1 + m] == (args + [items[i]]) + items[i + 1..i + 1 + m];
    }
  }

  /** The values the calls of cs are made from, in order: each function
      value followed by its arguments. */
  function Flatten(cs: seq<Call>): seq<Any> {
    if |cs| == 0 then [] else [cs[0].fn] + cs[0].args + Flatten(cs[1..])
  }

  function FuncCount(items: seq<Any>): nat {
    if |items| == 0 then 0 else (if items[0].Func? then 1 else 0) + FuncCount(items[1..])
  }

  lemma FlattenCons(c: Call, cs: seq<Call>)
    ensures Flatten([c] + cs) == [c.fn] + c.args + Flatten(cs)
  {
    assert ([c] + cs)[1..] == cs;
  }

  /** DoFuncs loses nothing after the first function value: the calls laid
      end to end give back the input without its leading non-function
      values. */
  lemma CallGroupsFlatten(items: seq<Any>)
    ensures Flatten(CallGroups(items)) == items[ArgRun(items, 0)..]
  {
    GroupsFromFlatten(items, 0);
  }

  lemma {:induction false} GroupsFromFlatten(items: seq<Any>, i: nat)
    requires i <= |items|
    ensures Flatten(GroupsFrom(items, i)) == items[i + ArgRun(items, i)..]
    decreases |items| - i
  {
    if i < |items| {
      if !items[i].Func? {
        GroupsFromFlatten(items, i + 1);
        FlattenSkip(items, i);
      } else {
        var j := i + 1 + ArgRun(items, i + 1);
        GroupsFromFlatten(items, j);
        FlattenGroup(items, i, j);
      }
    }
  }

  /** The step of GroupsFromFlatten at a function value: its call is laid
      down in front of the rest. */
  lemma FlattenGroup(items: seq<Any>, i: nat, j: nat)
    requires i < |items| && items[i].Func? && j == i + 1 + ArgRun(items, i + 1)
    requires Flatten(GroupsFrom(items, j)) == items[j + ArgRun(items, j)..]
    ensures Flatten(GroupsFrom(items, i)) == items[i + ArgRun(items, i)..]
  {
    GroupBounds(items, i, j);
    assert j + ArgRun(items, j) == j && i + ArgRun(items, i) == i;
    FlattenOneGroup(items, i, j);
  }

  /** A group starts at a function value and ends before the next one. */
  lemma GroupBounds(items: seq<Any>, i: nat, j: nat)
    requires i < |items| && items[i].Func? && j == i + 1 + ArgRun(items, i + 1)
    ensures ArgRun(items, i) == 0 && ArgRun(items, j) == 0
  {
    ArgRunStops(items, i + 1);
  }

  lemma FlattenOneGroup(items: seq<Any>, i: nat, j: nat)
    requires i < |items| && items[i].Func? && j == i + 1 + ArgRun(items, i + 1)
    requires Flatten(GroupsFrom(items, j)) == items[j..]
    ensures Flatten(GroupsFrom(items, i)) == items[i..]
  {
    var c := Call(items[i], items[i + 1..j]);
    GroupsFromOfFunc(items, i);
    FlattenCons(c, GroupsFrom(items, j));
    assert items[i..] == [items[i]] + items[i + 1..j] + items[j..];
  }

  /** The step of GroupsFromFlatten at a non-function value, which
      DoFuncs drops or has already passed to the call before it. */
  lemma FlattenSkip(items: seq<Any>, i: nat)
    requires i < |items| && !items[i].Func?
    requires Flatten(GroupsFrom(items, i + 1)) == items[i + 1 + ArgRun(items, i + 1)..]
    ensures Flatten(GroupsFrom(items, i)) == items[i + ArgRun(items, i)..]
  {
    assert i + ArgRun(items, i) == i + 1 + ArgRun(items, i + 1);
  }

  /** DoFuncs makes exactly one call per function value. */
  lemma CallGroupsCount(items: seq<Any>)
    ensures |CallGroups(items)| == FuncCount(items)
  {
    GroupsFromCount(items, 0);
    assert items[0..] == items;
  }

  lemma {:induction false} GroupsFromCount(items: seq<Any>, i: nat)
    requires i <= |items|
    ensures |GroupsFrom(items, i)| == FuncCount(items[i..])
    decreases |items| - i
  {
    if i < |items| {
      if !items[i].Func? {
        GroupsFromCount(items, i + 1);
        CountSkip(items, i);
      } else {
        var j := i + 1 + ArgRun(items, i + 1);
        GroupsFromCount(items, j);
        CountGroup(items, i, j);
      }
    }
  }

  lemma CountSkip(items: seq<Any>, i: nat)
    requires i < |items| && !items[i].Func?
    requires |GroupsFrom(items, i + 1)| == FuncCount(items[i + 1..])
    ensures |GroupsFrom(items, i)| == FuncCount(items[i..])
  {
    assert items[i..][0] == items[i] && items[i..][1..] == items[i + 1..];
  }

  lemma CountGroup(items: seq<Any>, i: nat, j: nat)
    requires i < |items| && items[i].Func? && j == i + 1 + ArgRun(items, i + 1)
    requires |GroupsFrom(items, j)| == FuncCount(items[j..])
    ensures |GroupsFrom(items, i)| == FuncCount(items[i..])
  {
    assert items[i..][0] == items[i] && items[i..][1..] == items[i + 1..];
    assert items[i + 1..] == items[i + 1..j] + items[j..];
    ArgRunNoFunc(items, i + 1);
    FuncCountSplit(items[i + 1..j], items[j..]);
  }

  /** Every call DoFuncs makes is of a function value, and no function value
      is among its arguments. */
  lemma CallGroupsShape(items: seq<Any>)
    ensures forall k :: 0 <= k < |CallGroups(items)| ==>
              CallGroups(items)[k].fn.Func? && NoFunc(CallGroups(items)[k].args)
  {
    GroupsFromShape(items, 0);
  }

  lemma {:induction false} GroupsFromShape(items: seq<Any>, i: nat)
    requires i <= |items|
    ensures forall k :: 0 <= k < |GroupsFrom(items, i)| ==>
              GroupsFrom(items, i)[k].fn.Func? && NoFunc(GroupsFrom(items, i)[k].args)
    decreases |items| - i
  {
    if i < |items| {
      if !items[i].Func? {
        GroupsFromShape(items, i + 1);
      } else {
        GroupsFromShape(items, i + 1 + ArgRun(items, i + 1));
        ArgRunNoFunc(items, i + 1);
      }
    }
  }

  /** ArgRun stops at a function value or at the end. */
  lemma {:induction false} ArgRunStops(items: seq<Any>, i: nat)
    requires i <= |items|
    ensures i + ArgRun(items, i) < |items| ==> items[i + ArgRun(items, i)].Func?
    decreases |items| - i
  {
    if i < |items| && !items[i].Func? {
      ArgRunStops(items, i + 1);
    }
  }

  /** The values ArgRun counts are no function values. */
  lemma {:induction false} ArgRunNoFunc(items: seq<Any>, i: nat)
    requires i <= |items|
    ensures NoFunc(items[i..i + ArgRun(items, i)])
    decreases |items| - i
  {
    if i < |items| && !items[i].Func? {
      ArgRunNoFunc(items, i + 1);
      assert items[i..i + ArgRun(items, i)] == [items[i]] + items[i + 1..i + 1 + ArgRun(items, i + 1)];
    }
  }

  predicate NoFunc(xs: seq<Any>) {
    forall i :: 0 <= i < |xs| ==> !xs[i].Func?
  }

  lemma {:induction false} FuncCountSplit(front: seq<Any>, back: seq<Any>)
    requires NoFunc(front)
    ensures FuncCount(front + back) == FuncCount(back)
    decreases |front|
  {
    if |front| > 0 {
      var whole := front + back;
      assert whole[0] == front[0] && !front[0].Func?;
      assert whole[1..] == front[1..] + back;
      FuncCountSplit(front[1..], back);
    } else {
      assert front + back == back;
    }
  }
}
