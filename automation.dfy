/** The COM side of the helpers and the library's generic property
    accessors GetProperty and PutProperty. A COM object is reached through
    an IDispatch handle; its readable properties are a map from name to
    VARIANT, and every write or method call it receives is appended to a
    log, in order, with the error the server answers it with. */
module Automation {
  import opened Wrappers
  import opened GoStrings
  import opened Variants
  import opened Faults

  /** An *ole.IDispatch; 0 is nil. */
  type Handle = nat

  /** A call made on a COM object: a property write or a method call. */
  datatype Request =
    | Put(target: Handle, name: string, value: Any)
    | Invoke(target: Handle, name: string, args: seq<Any>)

  /** The panic of a call through a nil *ole.IDispatch. */
  const NIL_DEREF := "runtime error: invalid memory address or nil pointer dereference"

  /** The panic of go-ole's argument marshalling on a value that has no
      VARIANT form. */
  const UNKNOWN_TYPE := "unknown type"

  /** A value go-ole can pass to a COM call: maps and funcs have no VARIANT
      form. */
  predicate Marshallable(v: Any) {
    !v.GoMap? && !v.OptionMap? && !v.Func?
  }

  predicate AllMarshallable(args: seq<Any>) {
    forall k :: 0 <= k < |args| ==> Marshallable(args[k])
  }

  /** The error a COM object answers for a property it does not have. */
  const UNKNOWN_NAME := "Unknown name."

  /** What PutProperty resolves its arguments to: one property write, or a
      write of every entry of a map to one object. */
  datatype PutPlan =
    | Single(target: Handle, name: string, value: Any)
    | Multi(target: Handle, entries: map<string, Any>)

  /** VARIANT.ToIDispatch: the object a VT_DISPATCH variant points to;
      every other variant gives nil. */
  function ToIDispatch(va: Variant): Handle {
    if va.vt == 9 then Unsigned(va.val) else 0
  }

  /** Names passed as Go strings. */
  function Strs(names: seq<string>): (r: seq<Any>)
    ensures |r| == |names|
    ensures forall i :: 0 <= i < |names| ==> r[i] == Str(names[i])
  {
    seq(|names|, i requires 0 <= i < |names| => Str(names[i]))
  }

  /** strings.Join(items, ", ") written with the one-character separator
      ",": every item after the first gains a leading space. */
  function Spaced(items: seq<string>): (r: seq<string>)
    requires |items| >= 1
    ensures |r| == |items| && r[0] == items[0]
    ensures forall k :: 1 <= k < |items| ==> r[k] == " " + items[k]
  {
    [items[0]] + seq(|items| - 1, k requires 0 <= k < |items| - 1 => " " + items[k + 1])
  }

  /** The property names a sequence of writes writes, in order. */
  function Names(ws: seq<Request>): (r: seq<string>)
    ensures |r| == |ws|
  {
    seq(|ws|, k requires 0 <= k < |ws| => ws[k].name)
  }

  /** The COM objects the helpers talk to. */
  class Server {
    /** The properties each object answers reads with. */
    const objects: map<Handle, map<string, Variant>>
    /** The error the server answers each write or call with, if any. */
    const respond: Request -> Option<string>
    /** Every write and method call received, oldest first. */
    var log: seq<Request>

    constructor (objects: map<Handle, map<string, Variant>>, respond: Request -> Option<string>)
      ensures this.objects == objects && this.respond == respond && log == []
    {
      this.objects := objects;
      this.respond := respond;
      log := [];
    }

    function Props(h: Handle): map<string, Variant> {
      if h in objects then objects[h] else map[]
    }

    /** oleutil.MustGetProperty: the VARIANT read, or the text of the panic. */
    function Read(h: Handle, name: string): Result<Variant, string> {
      if h == 0 then Failure(NIL_DEREF)
      else if name in Props(h) then Success(Props(h)[name])
      else Failure(UNKNOWN_NAME)
    }

    /** One step down a property path: the name must have Go type string,
        the property must exist, and it must hold an object (a nil handle
        panics where its Release is deferred). */
    function Step(h: Handle, name: Any): (r: Result<Handle, string>)
      ensures r.Success? ==> r.value != 0
    {
      match AsGoString(name)
      case None => Failure(NotStringPanic(name))
      case Some(s) =>
        var va :- Read(h, s);
        var next := ToIDispatch(va);
        if next == 0 then Failure(NIL_DEREF) else Success(next)
    }

    /** The object reached from h by following path, or the first panic. */
    function Walk(h: Handle, path: seq<Any>): (r: Result<Handle, string>)
      ensures r.Success? && |path| > 0 ==> r.value != 0
      ensures |path| == 0 ==> r == Success(h)
      decreases |path|
    {
      if |path| == 0 then Success(h)
      else
        var next :- Step(h, path[0]);
        Walk(next, path[1..])
    }

    /** Walking a path in two parts is walking the first part and then,
        from the object it reaches, the second. */
    lemma {:induction false} WalkAppend(h: Handle, a: seq<Any>, b: seq<Any>)
      ensures Walk(h, a + b) == (match Walk(h, a)
                                 case Failure(e) => Failure(e)
                                 case Success(t) => Walk(t, b))
      decreases |a|
    {
      if |a| > 0 {
        assert (a + b)[0] == a[0] && (a + b)[1..] == a[1..] + b;
        match Step(h, a[0])
        case Failure(_) =>
        case Success(next) => WalkAppend(next, a[1..], b);
      } else {
        assert a + b == b;
      }
    }

    /** The walk loop shared by GetProperty and PutProperty: one
        MustGetProperty and ToIDispatch per name, stopping at the first
        panic. */
    method WalkPath(h: Handle, path: seq<Any>) returns (r: Result<Handle, string>)
      ensures r == Walk(h, path)
    {
      var idisp := h;
      var i := 0;
      while i < |path|
        invariant 0 <= i <= |path|
        invariant Walk(h, path) == Walk(idisp, path[i..])
      {
        WalkUnfold(idisp, path, i);
        var next := Step(idisp, path[i]);
        if next.Failure? {
          return Failure(next.error);
        }
        idisp := next.value;
        i := i + 1;
      }
      r := Success(idisp);
    }

    lemma WalkUnfold(h: Handle, path: seq<Any>, i: nat)
      requires i < |path|
      ensures Walk(h, path[i..]) == (match Step(h, path[i])
                                     case Failure(e) => Failure(e)
                                     case Success(next) => Walk(next, path[i + 1..]))
    {
      assert path[i..][0] == path[i] && path[i..][1..] == path[i + 1..];
    }

    /** The "key:value" items of a multi-property read of keys on h. */
    function Items(h: Handle, keys: seq<string>, formatReal: RealFormatter): (r: seq<string>)
      requires forall k :: 0 <= k < |keys| ==> keys[k] in Props(h)
      ensures |r| == |keys|
    {
      seq(|keys|, k requires 0 <= k < |keys| => keys[k] + ":" + String(Value(Props(h)[keys[k]], formatReal)))
    }

    /** The outcome of GetProperty(h, args...): the value read, or the text
        of the panic Except recovers. No arguments reads "Value"; otherwise
        every argument but the last names a step of the path, and the last
        is read from the object the path leads to. */
    function Get(h: Handle, args: seq<string>, formatReal: RealFormatter): Result<Any, string> {
      if |args| == 0 then
        var va :- Read(h, "Value");
        Success(Value(va, formatReal))
      else
        var target :- Walk(h, Strs(args[..|args| - 1]));
        ReadLast(target, args[|args| - 1], formatReal)
    }

    /** The read of GetProperty's last argument on target: an argument
        holding ',' reads each comma-separated key, untrimmed, and joins the
        "key:value" items with ", "; any other names one property. */
    function ReadLast(target: Handle, last: string, formatReal: RealFormatter): Result<Any, string> {
      if ',' in last then
        var items :- ReadItems(target, Split(last, ','), formatReal);
        Success(Str(Join(items, ", ")))
      else
        var va :- Read(target, last);
        Success(Value(va, formatReal))
    }

    /** The items of a multi-property read of keys on target, or the panic
        of the first read that fails. */
    function ReadItems(target: Handle, keys: seq<string>, formatReal: RealFormatter): Result<seq<string>, string>
      requires |keys| >= 1
    {
      if target == 0 then Failure(NIL_DEREF)
      else if forall k :: 0 <= k < |keys| ==> keys[k] in Props(target) then
        Success(Items(target, keys, formatReal))
      else Failure(UNKNOWN_NAME)
    }

    /** GetProperty: walks the path one object at a time, then reads the
        last argument. A panic leaves the result nil and becomes the error
        "@GetProperty: panic". */
    method GetProperty(h: Handle, args: seq<string>, formatReal: RealFormatter) returns (ret: Any, err: Option<string>)
      ensures Get(h, args, formatReal).Success? ==> ret == Get(h, args, formatReal).value && err == None
      ensures Get(h, args, formatReal).Failure? ==>
                ret == Nil && err == Some(Recovered("GetProperty", Get(h, args, formatReal).error))
    {
      if |args| == 0 {
        var r := Read(h, "Value");
        if r.Failure? {
          return Nil, Reported("GetProperty", None, Some(r.error));
        }
        return Value(r.value, formatReal), None;
      }
      var maxi := |args| - 1;
      var t := WalkPath(h, Strs(args[..maxi]));
      if t.Failure? {
        return Nil, Reported("GetProperty", None, Some(t.error));
      }
      var idisp := t.value;
      var argv := args[maxi];
      if ',' in argv {
        var items := GatherItems(idisp, Split(argv, ','), formatReal);
        if items.Failure? {
          return Nil, Reported("GetProperty", None, Some(items.error));
        }
        ret, err := Str(Join(items.value, ", ")), None;
      } else {
        var r := Read(idisp, argv);
        if r.Failure? {
          return Nil, Reported("GetProperty", None, Some(r.error));
        }
        ret, err := Value(r.value, formatReal), None;
      }
    }

    /** The loop of a multi-property read: one read per key, in order,
        appending "key:value" to the items. */
    method GatherItems(target: Handle, keys: seq<string>, formatReal: RealFormatter) returns (r: Result<seq<string>, string>)
      requires |keys| >= 1
      ensures r == ReadItems(target, keys, formatReal)
    {
      var sl: seq<string> := [];
      var j := 0;
      while j < |keys|
        invariant 0 <= j <= |keys|
        invariant forall k :: 0 <= k < j ==> keys[k] in Props(target)
        invariant j > 0 ==> target != 0
        invariant sl == Items(target, keys[..j], formatReal)
      {
        var one := Read(target, keys[j]);
        if one.Failure? {
          return Failure(one.error);
        }
        ItemsSnoc(target, keys, j, formatReal);
        sl := sl + [keys[j] + ":" + String(Value(one.value, formatReal))];
        j := j + 1;
      }
      assert keys[..j] == keys;
      r := Success(sl);
    }

    lemma ItemsSnoc(target: Handle, keys: seq<string>, j: nat, formatReal: RealFormatter)
      requires j < |keys| && forall k :: 0 <= k <= j ==> keys[k] in Props(target)
      ensures Items(target, keys[..j + 1], formatReal) ==
                Items(target, keys[..j], formatReal) + [keys[j] + ":" + String(Value(Props(target)[keys[j]], formatReal))]
    {
      var longer := keys[..j + 1];
      assert longer[..j] == keys[..j] && longer[j] == keys[j];
    }

    /** A successful multi-property read splits back, on ',', into its
        items in key order (every item after the first behind one space),
        as long as no value's text holds a ','. */
    lemma MultiGetSplits(h: Handle, path: seq<string>, argv: string, formatReal: RealFormatter)
      requires ',' in argv
      requires Get(h, path + [argv], formatReal).Success?
      requires Walk(h, Strs(path)).Success?
      requires var t := Walk(h, Strs(path)).value;
               forall k :: 0 <= k < |Split(argv, ',')| && Split(argv, ',')[k] in Props(t) ==>
                 ',' !in String(Value(Props(t)[Split(argv, ',')[k]], formatReal))
      ensures var t := Walk(h, Strs(path)).value;
              var keys := Split(argv, ',');
              && (forall k :: 0 <= k < |keys| ==> keys[k] in Props(t))
              && Get(h, path + [argv], formatReal).value.Str?
              && Split(Get(h, path + [argv], formatReal).value.s, ',') == Spaced(Items(t, keys, formatReal))
    {
      GetOfNamedRead(h, path, argv, formatReal);
      var t := Walk(h, Strs(path)).value;
      var keys := Split(argv, ',');
      var items := Items(t, keys, formatReal);
      JoinWithSpace(items);
      forall k | 0 <= k < |items| ensures ',' !in Spaced(items)[k] {
        NoCommaInItem(keys[k], String(Value(Props(t)[keys[k]], formatReal)));
      }
      JoinSplit(Spaced(items), ',');
    }

    /** A concrete object with a text and an integer property: reading
        "Name,Count" gives both items in order, while "Name, Count" fails,
        because the key " Count" is not trimmed. */
    lemma MultiGetExample(formatReal: RealFormatter)
      requires objects == map[1 := map["Name" := Variant(8, [0, 0, 0, 0, 0, 0, 0, 0], "Book1"),
                                      "Count" := Variant(3, [3, 0, 0, 0, 0, 0, 0, 0], "")]]
      ensures Get(1, ["Name,Count"], formatReal) == Success(Str("Name:Book1, Count:3"))
      ensures Get(1, ["Name, Count"], formatReal) == Failure(UNKNOWN_NAME)
    {
      var good: seq<string> := ["Name,Count"];
      var bad: seq<string> := ["Name, Count"];
      assert [] + good == good && [] + bad == bad;
      GetOfNamedRead(1, [], good[0], formatReal);
      GetOfNamedRead(1, [], bad[0], formatReal);
      assert Walk(1, Strs([])) == Success(1);
      SplitExamples();
      ExampleItems(formatReal);
      UntrimmedKeyMissing(formatReal);
    }

    lemma UntrimmedKeyMissing(formatReal: RealFormatter)
      requires objects == map[1 := map["Name" := Variant(8, [0, 0, 0, 0, 0, 0, 0, 0], "Book1"),
                                      "Count" := Variant(3, [3, 0, 0, 0, 0, 0, 0, 0], "")]]
      ensures ReadItems(1, ["Name", " Count"], formatReal) == Failure(UNKNOWN_NAME)
    {
      var keys := ["Name", " Count"];
      assert Props(1) == objects[1] && Props(1).Keys == {"Name", "Count"};
      assert |keys[1]| == 6 && keys[1] != "Name" && keys[1] != "Count";
      assert keys[1] !in Props(1);
    }

    lemma ExampleItems(formatReal: RealFormatter)
      requires objects == map[1 := map["Name" := Variant(8, [0, 0, 0, 0, 0, 0, 0, 0], "Book1"),
                                      "Count" := Variant(3, [3, 0, 0, 0, 0, 0, 0, 0], "")]]
      ensures ReadItems(1, ["Name", "Count"], formatReal) == Success(["Name:Book1", "Count:3"])
      ensures Join(["Name:Book1", "Count:3"], ", ") == "Name:Book1, Count:3"
    {
      var keys := ["Name", "Count"];
      assert Props(1) == objects[1];
      assert keys[0] in Props(1) && keys[1] in Props(1);
      ExampleTexts(formatReal);
      assert Items(1, keys, formatReal) == ["Name:Book1", "Count:3"];
      JoinExample();
    }

    lemma ExampleTexts(formatReal: RealFormatter)
      ensures "Name" + ":" + String(Value(Variant(8, [0, 0, 0, 0, 0, 0, 0, 0], "Book1"), formatReal)) == "Name:Book1"
      ensures "Count" + ":" + String(Value(Variant(3, [3, 0, 0, 0, 0, 0, 0, 0], ""), formatReal)) == "Count:3"
    {
      ThreeAsInt32(formatReal);
    }

    lemma ThreeAsInt32(formatReal: RealFormatter)
      ensures String(Value(Variant(3, [3, 0, 0, 0, 0, 0, 0, 0], ""), formatReal)) == "3"
    {
      var w: Word := [3, 0, 0, 0, 0, 0, 0, 0];
      var b3: seq<Byte> := [3, 0, 0, 0];
      var b2: seq<Byte> := [0, 0, 0];
      var b1: seq<Byte> := [0, 0];
      var b0: seq<Byte> := [0];
      assert b0[1..] == [] && b1[1..] == b0 && b2[1..] == b1 && b3[1..] == b2;
      assert Unsigned(b3) == 3;
      assert w[..4] == b3 && Signed(b3) == 3;
      assert Decimal(3) == "3";
    }

    /** oleutil.PutProperty: a write through a nil handle panics before it
        reaches a server, and so does a value go-ole cannot marshal; any
        other write is logged and answered. */
    method PutProp(h: Handle, name: string, value: Any) returns (r: Result<Option<string>, string>)
      modifies this
      ensures h == 0 ==> r == Failure(NIL_DEREF) && log == old(log)
      ensures h != 0 && !Marshallable(value) ==> r == Failure(UNKNOWN_TYPE) && log == old(log)
      ensures h != 0 && Marshallable(value) ==>
                r == Success(respond(Put(h, name, value))) && log == old(log) + [Put(h, name, value)]
    {
      if h == 0 {
        return Failure(NIL_DEREF);
      }
      if !Marshallable(value) {
        return Failure(UNKNOWN_TYPE);
      }
      log := log + [Put(h, name, value)];
      r := Success(respond(Put(h, name, value)));
    }

    /** oleutil.CallMethod: a call through a nil handle panics, and so
        does an argument go-ole cannot marshal; any other call is logged and
        answered. */
    method CallMethod(h: Handle, name: string, args: seq<Any>) returns (r: Result<Option<string>, string>)
      modifies this
      ensures h == 0 ==> r == Failure(NIL_DEREF) && log == old(log)
      ensures h != 0 && !AllMarshallable(args) ==> r == Failure(UNKNOWN_TYPE) && log == old(log)
      ensures h != 0 && AllMarshallable(args) ==>
                r == Success(respond(Invoke(h, name, args))) && log == old(log) + [Invoke(h, name, args)]
    {
      if h == 0 {
        return Failure(NIL_DEREF);
      }
      if !AllMarshallable(args) {
        return Failure(UNKNOWN_TYPE);
      }
      log := log + [Invoke(h, name, args)];
      r := Success(respond(Invoke(h, name, args)));
    }

    /** How PutProperty(h, args...) resolves a non-empty argument list, or
        the panic that stops it first. One argument writes "Value"; with
        more, every argument but the last two names a step of the path; a
        trailing map[string]interface{} writes its entries to the object
        named by the argument before it, and any other last argument is
        written to the property named by the argument before it. */
    function Plan(h: Handle, args: seq<Any>): Result<PutPlan, string>
      requires |args| >= 1
    {
      if |args| == 1 then
        if h == 0 then Failure(NIL_DEREF) else Success(Single(h, "Value", args[0]))
      else
        var t :- Walk(h, args[..|args| - 2]);
        PlanAt(t, args[|args| - 2], args[|args| - 1])
    }

    /** The write PutProperty plans on t, the object its path reached, for
        its last two arguments. */
    function PlanAt(t: Handle, nameArg: Any, last: Any): Result<PutPlan, string> {
      if last.GoMap? then
        var sub :- Step(t, nameArg);
        Success(Multi(sub, last.entries))
      else
        match AsGoString(nameArg)
        case None => Failure(NotStringPanic(nameArg))
        case Some(name) =>
          if t == 0 then Failure(NIL_DEREF) else Success(Single(t, name, last))
    }

    /** A single argument is written to the "Value" property, through a
        handle that must not be nil. */
    lemma OneArgumentWritesValue(h: Handle, x: Any)
      ensures h != 0 ==> Plan(h, [x]) == Success(Single(h, "Value", x))
      ensures h == 0 ==> Plan(h, [x]) == Failure(NIL_DEREF)
    {
    }

    /** The shapes PutProperty resolves its arguments to: every write goes
        through a non-nil handle; with two or more arguments, a trailing
        map[string]interface{} is written entry by entry, and any other
        last argument is written whole to the property the argument before
        it names. */
    lemma PlanShape(h: Handle, args: seq<Any>)
      requires |args| >= 1
      ensures var r := Plan(h, args);
              && (r.Success? ==> r.value.target != 0)
              && (|args| >= 2 && r.Success? ==>
                    && (r.value.Multi? <==> args[|args| - 1].GoMap?)
                    && (r.value.Multi? ==> r.value.entries == args[|args| - 1].entries)
                    && (r.value.Single? ==>
                          AsGoString(args[|args| - 2]) == Some(r.value.name) && r.value.value == args[|args| - 1]))
    {
    }

    /** ws are the writes of a multi-property put of entries to t that ended
        with err: each writes one entry, no name twice, every write but the
        last succeeded; on success every entry was written, and otherwise
        the last write failed and its error is the panic recovered. */
    predicate MapWrites(t: Handle, entries: map<string, Any>, ws: seq<Request>, err: Option<string>) {
      && (forall k :: 0 <= k < |ws| ==>
            && ws[k].Put? && ws[k].target == t && ws[k].name in entries && ws[k].value == entries[ws[k].name]
            && Marshallable(ws[k].value))
      && (forall k, l :: 0 <= k < l < |ws| ==> ws[k].name != ws[l].name)
      && (forall k :: 0 <= k < |ws| - 1 ==> respond(ws[k]).None?)
      && (err.None? ==>
            && (forall name :: name in entries ==> name in Names(ws))
            && (|ws| > 0 ==> respond(ws[|ws| - 1]).None?))
      && (err.Some? ==>
            || (|ws| > 0 && respond(ws[|ws| - 1]).Some? &&
                err == Some(Recovered("PutProperty", respond(ws[|ws| - 1]).value)))
            || (&& (|ws| > 0 ==> respond(ws[|ws| - 1]).None?)
                && err == Some(Recovered("PutProperty", UNKNOWN_TYPE))
                && exists name :: name in entries && name !in Names(ws) && !Marshallable(entries[name])))
    }

    /** PutProperty: no arguments is the error "%PutProperty%args is empty";
        a panic while resolving the arguments writes nothing; a single
        write is logged and its error recovered as "@PutProperty: ...",
        unless go-ole cannot marshal the value; a map is written entry by
        entry, in the map's iteration order, up to the first write that
        fails or cannot be marshalled. */
    method PutProperty(h: Handle, args: seq<Any>) returns (err: Option<string>)
      modifies this
      ensures |args| == 0 ==> err == Some("%PutProperty%args is empty") && log == old(log)
      ensures |args| >= 1 && Plan(h, args).Failure? ==>
                err == Some(Recovered("PutProperty", Plan(h, args).error)) && log == old(log)
      ensures |args| >= 1 && Plan(h, args).Success? ==>
                old(log) <= log && PlanDone(Plan(h, args).value, log[|old(log)|..], err)
    {
      if |args| == 0 {
        assert Wrapped("PutProperty", "args is empty") == "%PutProperty%args is empty";
        return Reported("PutProperty", Some("args is empty"), None);
      }
      var plan := Resolve(h, args);
      if plan.Failure? {
        return Reported("PutProperty", None, Some(plan.error));
      }
      PlanShape(h, args);
      err := Perform(plan.value);
    }

    /** The argument handling of PutProperty up to its writes: one argument
        writes "Value"; otherwise the path is walked one object at a time,
        and the last two arguments name the property or the map. */
    method Resolve(h: Handle, args: seq<Any>) returns (plan: Result<PutPlan, string>)
      requires |args| >= 1
      ensures plan == Plan(h, args)
    {
      var num := |args|;
      if num == 1 {
        if h == 0 {
          return Failure(NIL_DEREF);
        }
        return Success(Single(h, "Value", args[0]));
      }
      var t := WalkPath(h, args[..num - 2]);
      if t.Failure? {
        return Failure(t.error);
      }
      plan := PlanAt(t.value, args[num - 2], args[num - 1]);
    }

    /** ws and err are what carrying out the resolved put p wrote and
        returned: a single write, unless go-ole cannot marshal its value, or
        the writes of a map. */
    predicate PlanDone(p: PutPlan, ws: seq<Request>, err: Option<string>) {
      match p
      case Single(t, name, value) =>
        var w := Put(t, name, value);
        if Marshallable(value) then
          && ws == [w]
          && err == (if respond(w).Some? then Some(Recovered("PutProperty", respond(w).value)) else None)
        else
          ws == [] && err == Some(Recovered("PutProperty", UNKNOWN_TYPE))
      case Multi(t, entries) => MapWrites(t, entries, ws, err)
    }

    /** The writes of a resolved PutProperty, made with MustPutProperty. */
    method Perform(p: PutPlan) returns (err: Option<string>)
      requires p.target != 0
      modifies this
      ensures old(log) <= log && PlanDone(p, log[|old(log)|..], err)
    {
      match p
      case Single(t, name, value) =>
        var r := PutProp(t, name, value);
        err := Outcome(r);
        assert log[|old(log)|..] == if Marshallable(value) then [Put(t, name, value)] else [];
      case Multi(t, entries) =>
        err := PutEntries(t, entries);
    }

    /** MustPutProperty's outcome as seen by PutProperty's Except: an
        error answered is raised as a panic. */
    function Outcome(r: Result<Option<string>, string>): Option<string> {
      match r
      case Failure(p) => Reported("PutProperty", None, Some(p))
      case Success(e) => Reported("PutProperty", None, e)
    }

    /** The map loop of PutProperty: `for key, val := range entries`, in an
        order the model leaves open, stopping at the first write that
        fails. */
    method PutEntries(t: Handle, entries: map<string, Any>) returns (err: Option<string>)
      requires t != 0
      modifies this
      ensures old(log) <= log && MapWrites(t, entries, log[|old(log)|..], err)
    {
      ghost var before := log;
      var remaining := entries.Keys;
      while remaining != {}
        invariant before <= log
        invariant EntriesWritten(t, entries, remaining, log[|before|..])
        decreases remaining
      {
        var key :| key in remaining;
        ghost var ws := log[|before|..];
        var r := PutProp(t, key, entries[key]);
        if r.Failure? {
          EntriesUnmarshallable(t, entries, remaining, ws, key);
          return Reported("PutProperty", None, Some(r.error));
        }
        assert log[|before|..] == ws + [Put(t, key, entries[key])];
        if r.value.Some? {
          EntriesFailed(t, entries, remaining, ws, key);
          return Reported("PutProperty", None, r.value);
        }
        EntriesStep(t, entries, remaining, ws, key);
        remaining := remaining - {key};
      }
      EntriesDone(t, entries, log[|before|..]);
      err := None;
    }

    /** The loop invariant of PutEntries: ws wrote, once each and without
        error, exactly the entries no longer remaining. */
    predicate EntriesWritten(t: Handle, entries: map<string, Any>, remaining: set<string>, ws: seq<Request>) {
      && remaining <= entries.Keys
      && (forall k :: 0 <= k < |ws| ==>
            ws[k].Put? && ws[k].target == t && ws[k].name in entries &&
            ws[k].name !in remaining && ws[k].value == entries[ws[k].name] && Marshallable(ws[k].value))
      && (forall k, l :: 0 <= k < l < |ws| ==> ws[k].name != ws[l].name)
      && (forall k :: 0 <= k < |ws| ==> respond(ws[k]).None?)
      && (forall name :: name in entries && name !in remaining ==> name in Names(ws))
    }

    lemma EntriesStep(t: Handle, entries: map<string, Any>, remaining: set<string>, ws: seq<Request>, key: string)
      requires EntriesWritten(t, entries, remaining, ws) && key in remaining
      requires Marshallable(entries[key]) && respond(Put(t, key, entries[key])).None?
      ensures EntriesWritten(t, entries, remaining - {key}, ws + [Put(t, key, entries[key])])
    {
      assert Names(ws + [Put(t, key, entries[key])]) == Names(ws) + [key];
    }

    lemma EntriesFailed(t: Handle, entries: map<string, Any>, remaining: set<string>, ws: seq<Request>, key: string)
      requires EntriesWritten(t, entries, remaining, ws) && key in remaining
      requires Marshallable(entries[key]) && respond(Put(t, key, entries[key])).Some?
      ensures MapWrites(t, entries, ws + [Put(t, key, entries[key])],
                        Some(Recovered("PutProperty", respond(Put(t, key, entries[key])).value)))
    {
    }

    /** A remaining entry go-ole cannot marshal stops the loop before its
        write, with every earlier write answered without error. */
    lemma EntriesUnmarshallable(t: Handle, entries: map<string, Any>, remaining: set<string>, ws: seq<Request>, key: string)
      requires EntriesWritten(t, entries, remaining, ws) && key in remaining && !Marshallable(entries[key])
      ensures MapWrites(t, entries, ws, Some(Recovered("PutProperty", UNKNOWN_TYPE)))
    {
      assert key !in Names(ws);
    }

    lemma EntriesDone(t: Handle, entries: map<string, Any>, ws: seq<Request>)
      requires EntriesWritten(t, entries, {}, ws)
      ensures MapWrites(t, entries, ws, None)
    {
    }

    /** PutProperty writes the very property GetProperty reads: for a path
        of names, a name without ',' and a value that is not a map, both
        walk to the same object, one reads the named property of it and
        the other writes that property. */
    lemma PutWritesWhatGetReads(h: Handle, path: seq<string>, name: string, value: Any, formatReal: RealFormatter)
      requires ',' !in name && !value.GoMap?
      requires Walk(h, Strs(path)).Success? && Walk(h, Strs(path)).value != 0
      ensures var t := Walk(h, Strs(path)).value;
              && Plan(h, Strs(path) + [Str(name), value]) == Success(Single(t, name, value))
              && Get(h, path + [name], formatReal) ==
                   (if name in Props(t) then Success(Value(Props(t)[name], formatReal)) else Failure(UNKNOWN_NAME))
    {
      PlanOfNamedWrite(h, Strs(path), name, value);
      GetOfNamedRead(h, path, name, formatReal);
    }

    lemma PlanOfNamedWrite(h: Handle, path: seq<Any>, name: string, value: Any)
      requires !value.GoMap? && Walk(h, path).Success? && Walk(h, path).value != 0
      ensures Plan(h, path + [Str(name), value]) == Success(Single(Walk(h, path).value, name, value))
    {
      var args := path + [Str(name), value];
      assert args[..|args| - 2] == path && args[|args| - 2] == Str(name) && args[|args| - 1] == value;
    }

    lemma GetOfNamedRead(h: Handle, path: seq<string>, name: string, formatReal: RealFormatter)
      requires Walk(h, Strs(path)).Success?
      ensures Get(h, path + [name], formatReal) == ReadLast(Walk(h, Strs(path)).value, name, formatReal)
    {
      var args := path + [name];
      assert args[..|args| - 1] == path && args[|args| - 1] == name;
    }

    /** A trailing map is written to the object reached by walking one step
        further, through the name before it. */
    lemma PutMapTargetsNamedObject(h: Handle, path: seq<string>, name: string, entries: map<string, Any>)
      requires Walk(h, Strs(path + [name])).Success?
      ensures Plan(h, Strs(path) + [Str(name), GoMap(entries)]) ==
                Success(Multi(Walk(h, Strs(path + [name])).value, entries))
    {
      var args := Strs(path) + [Str(name), GoMap(entries)];
      assert args[..|args| - 2] == Strs(path) && args[|args| - 2] == Str(name);
      assert Strs(path + [name]) == Strs(path) + [Str(name)];
      WalkAppend(h, Strs(path), [Str(name)]);
      var t := Walk(h, Strs(path)).value;
      assert [Str(name)][1..] == [];
    }

    /** An excel.Option is a named map type, so it is not the
        map[string]interface{} PutProperty spreads out: it is planned as a
        single write, which go-ole then refuses to marshal. */
    lemma OptionIsWrittenWhole(h: Handle, name: string, entries: map<string, Any>)
      requires h != 0
      ensures Plan(h, [Str(name), OptionMap(entries)]) == Success(Single(h, name, OptionMap(entries)))
      ensures !Marshallable(OptionMap(entries))
    {
      var args := [Str(name), OptionMap(entries)];
      assert args[..0] == [];
    }
  }

  // ---------------------------------------------------------------------
  // Joining and splitting the items of a multi-property read

  lemma JoinExample()
    ensures Join(["Name:Book1", "Count:3"], ", ") == "Name:Book1, Count:3"
  {
    var joined: seq<string> := ["Name:Book1", "Count:3"];
    assert joined[1..] == ["Count:3"];
  }

  lemma SplitExamples()
    ensures Split("Name,Count", ',') == ["Name", "Count"]
    ensures Split("Name, Count", ',') == ["Name", " Count"]
  {
    SplitAtComma("Name", "Count");
    SplitAtComma("Name", " Count");
    assert "Name" + "," + "Count" == "Name,Count";
    assert "Name" + "," + " Count" == "Name, Count";
  }

  /** Splitting a + "," + b, where neither holds ',', gives [a, b]. */
  lemma SplitAtComma(a: string, b: string)
    requires ',' !in a && ',' !in b
    ensures Split(a + "," + b, ',') == [a, b]
  {
    var s := a + "," + b;
    assert s[|a|] == ',';
    assert s[..|a|] == a;
    assert IndexOf(s, ',') == |a|;
    assert s[|a| + 1..] == b;
  }

  lemma JoinSpace(a: string, rest: seq<string>, sep: string)
    ensures Join([" " + a] + rest, sep) == " " + Join([a] + rest, sep)
  {
    if |rest| > 0 {
      assert ([" " + a] + rest)[1..] == rest && ([a] + rest)[1..] == rest;
    }
  }

  /** strings.Join(items, ", ") is the join on "," of the items with a
      space in front of every item after the first. */
  lemma {:induction false} JoinWithSpace(items: seq<string>)
    requires |items| >= 1
    ensures Join(items, ", ") == Join(Spaced(items), ",")
    decreases |items|
  {
    if |items| >= 2 {
      var rest := items[1..];
      JoinWithSpace(rest);
      var sp := Spaced(items);
      var spr := Spaced(rest);
      assert sp[1..] == [" " + rest[0]] + spr[1..];
      assert spr == [rest[0]] + spr[1..];
      JoinSpace(rest[0], spr[1..], ",");
      assert Join(sp, ",") == sp[0] + "," + Join(sp[1..], ",");
    } else {
      assert Spaced(items) == items;
    }
  }

  lemma NoCommaInItem(key: string, text: string)
    requires ',' !in key && ',' !in text
    ensures ',' !in key + ":" + text && ',' !in " " + (key + ":" + text)
  {
  }

  /** Splitting a join on a separator that occurs in no item gives the
      items back: the inverse of SplitJoin. */
  lemma {:induction false} JoinSplit(items: seq<string>, sep: char)
    requires |items| >= 1
    requires forall k :: 0 <= k < |items| ==> sep !in items[k]
    ensures Split(Join(items, [sep]), sep) == items
    decreases |items|
  {
    if |items| >= 2 {
      var rest := items[1..];
      JoinSplit(rest, sep);
      var s := Join(items, [sep]);
      assert s == items[0] + [sep] + Join(rest, [sep]);
      assert s[|items[0]|] == sep;
      assert IndexOf(s, sep) == |items[0]| by {
        assert s[..|items[0]|] == items[0];
      }
      assert s[..|items[0]|] == items[0];
      assert s[|items[0]| + 1..] == Join(rest, [sep]);
    }
  }
}
