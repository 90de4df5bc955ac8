/** The workbook helpers of the MSO handle: its options (SetOption), saving
    one workbook under a format name (WorkBook.SaveAs) and saving every
    open workbook under a numbered name (WorkBooks.SaveAs). */
module Workbooks {
  import opened Wrappers
  import opened GoStrings
  import opened Variants
  import opened Faults
  import opened Automation

  /** XlFileFormat codes by lower-case format name. */
  const FILE_FORMATS: map<string, int> := map["txt" := -4158, "csv" := 6, "html" := 44]

  /** The panic of args[0] on an empty argument list. */
  const INDEX_PANIC := "runtime error: index out of range [0] with length 0"

  /** The panic of recording an option in a nil Option map. */
  const NIL_MAP_WRITE := "assignment to entry in nil map"

  // ---------------------------------------------------------------------
  // SetOption

  /** The options SetOption goes through, and whether this is the initial
      write of every option. */
  datatype OptionRequest = OptionRequest(curs: map<string, Any>, isInit: bool)

  /** What SetOption(args...) is asked to do: a positive int rewrites every
      current option, an Option sets its entries, a string key and a value
      set that one option; anything else asks for nothing. */
  function Requested(args: seq<Any>, ops: map<string, Any>): (rq: OptionRequest)
    ensures |args| == 1 && args[0].Int? && args[0].n > 0 ==> rq == OptionRequest(ops, true)
    ensures |args| == 1 && args[0].OptionMap? ==> rq == OptionRequest(args[0].entries, false)
    ensures |args| == 2 && AsGoString(args[0]).Some? ==>
              rq == OptionRequest(map[AsGoString(args[0]).value := args[1]], false)
    ensures !(|args| == 1 && ((args[0].Int? && args[0].n > 0) || args[0].OptionMap?)) &&
            !(|args| == 2 && AsGoString(args[0]).Some?) ==>
              rq == OptionRequest(map[], false)
  {
    if |args| == 1 then
      match args[0]
      case Int(n) => if n > 0 then OptionRequest(ops, true) else OptionRequest(map[], false)
      case OptionMap(m) => OptionRequest(m, false)
      case _ => OptionRequest(map[], false)
    else if |args| == 2 then
      match AsGoString(args[0])
      case Some(key) => OptionRequest(map[key := args[1]], false)
      case None => OptionRequest(map[], false)
    else OptionRequest(map[], false)
  }

  /** The requested value of key is new, or differs from the current one. */
  predicate Changed(key: string, curs: map<string, Any>, ops: map<string, Any>)
    requires key in curs
  {
    key !in ops || GoEqual(curs[key], ops[key]) == Success(false)
  }

  /** Comparing the requested and the current value of key panics. */
  predicate Uncomparable(key: string, curs: map<string, Any>, ops: map<string, Any>)
    requires key in curs
  {
    key in ops && GoEqual(curs[key], ops[key]).Failure?
  }

  predicate NeedsWrite(key: string, rq: OptionRequest, ops: map<string, Any>)
    requires key in rq.curs
  {
    rq.isInit || Changed(key, rq.curs, ops)
  }

  /** Every option written in ws was requested and needed writing. */
  predicate OnlyNeededWritten(rq: OptionRequest, ops: map<string, Any>, ws: seq<Request>) {
    forall name :: name in Names(ws) ==> name in rq.curs && NeedsWrite(name, rq, ops)
  }

  /** The panic that writing the option key raises, if any: a write
      through a nil handle, a value go-ole cannot marshal, or, once the
      write is sent, recording it in a nil Option map. */
  function WritePanic(key: string, rq: OptionRequest, excel: Handle, nilOps: bool): (p: Option<string>)
    requires key in rq.curs
    ensures p.None? <==> excel != 0 && Marshallable(rq.curs[key]) && (rq.isInit || !nilOps)
  {
    if excel == 0 then Some(NIL_DEREF)
    else if !Marshallable(rq.curs[key]) then Some(UNKNOWN_TYPE)
    else if nilOps && !rq.isInit then Some(NIL_MAP_WRITE)
    else None
  }

  /** SetOption panics, whatever order it ranges over the options in: a
      comparison of uncomparable values, or a write that panics. */
  predicate Panics(rq: OptionRequest, ops: map<string, Any>, excel: Handle, nilOps: bool) {
    || (!rq.isInit && exists key :: key in rq.curs && Uncomparable(key, rq.curs, ops))
    || (exists key :: key in rq.curs && NeedsWrite(key, rq, ops) && WritePanic(key, rq, excel, nilOps).Some?)
  }

  /** p is the text of a panic SetOption can raise for rq. */
  predicate PanicOf(p: string, rq: OptionRequest, ops: map<string, Any>, excel: Handle, nilOps: bool) {
    || (!rq.isInit && exists key :: key in rq.curs && key in ops && GoEqual(rq.curs[key], ops[key]) == Failure(p))
    || (exists key :: key in rq.curs && NeedsWrite(key, rq, ops) && WritePanic(key, rq, excel, nilOps) == Some(p))
  }

  /** The entries of curs whose keys are among names. */
  function Restrict(curs: map<string, Any>, names: seq<string>): map<string, Any> {
    map k | k in curs && k in names :: curs[k]
  }

  /** ws are option writes to excel: each writes one requested option with
      its requested value, one go-ole could marshal, and no option is
      written twice. */
  predicate OptionWrites(excel: Handle, curs: map<string, Any>, ws: seq<Request>) {
    && (forall k :: 0 <= k < |ws| ==>
          && ws[k].Put? && ws[k].target == excel && ws[k].name in curs && ws[k].value == curs[ws[k].name]
          && Marshallable(ws[k].value))
    && (forall k, l :: 0 <= k < l < |ws| ==> ws[k].name != ws[l].name)
  }

  lemma OptionWritesSnoc(excel: Handle, curs: map<string, Any>, ws: seq<Request>, key: string)
    requires OptionWrites(excel, curs, ws) && key in curs && key !in Names(ws) && Marshallable(curs[key])
    ensures OptionWrites(excel, curs, ws + [Put(excel, key, curs[key])])
    ensures Names(ws + [Put(excel, key, curs[key])]) == Names(ws) + [key]
  {
    var longer := ws + [Put(excel, key, curs[key])];
    forall k, l | 0 <= k < l < |longer| ensures longer[k].name != longer[l].name {
      if l == |ws| {
        assert longer[k].name == Names(ws)[k];
      }
    }
  }

  lemma RestrictSnoc(ops: map<string, Any>, curs: map<string, Any>, names: seq<string>, key: string)
    requires key in curs
    ensures (ops + Restrict(curs, names))[key := curs[key]] == ops + Restrict(curs, names + [key])
  {
    assert Restrict(curs, names + [key]) == Restrict(curs, names)[key := curs[key]];
  }

  /** SetOption has handled the options in done: it wrote ws, exactly the
      ones that needed writing, none of them panicked, and opt records what
      was written. */
  ghost predicate Settled(excel: Handle, rq: OptionRequest, ops: map<string, Any>, nilOps: bool, done: set<string>,
                          ws: seq<Request>, opt: map<string, Any>)
  {
    && done <= rq.curs.Keys
    && OptionWrites(excel, rq.curs, ws)
    && (forall name :: name in Names(ws) ==> name in done)
    && (forall key :: key in done ==>
          && (key in Names(ws) <==> NeedsWrite(key, rq, ops))
          && !(!rq.isInit && Uncomparable(key, rq.curs, ops))
          && !(NeedsWrite(key, rq, ops) && WritePanic(key, rq, excel, nilOps).Some?))
    && opt == (if rq.isInit || nilOps then ops else ops + Restrict(rq.curs, Names(ws)))
  }

  /** An option not yet handled has not been written, and the recorded
      options still hold its value from before. */
  lemma SettledUnwritten(excel: Handle, rq: OptionRequest, ops: map<string, Any>, nilOps: bool, done: set<string>,
                         ws: seq<Request>, opt: map<string, Any>, key: string)
    requires Settled(excel, rq, ops, nilOps, done, ws, opt) && key in rq.curs && key !in done
    ensures key !in Names(ws)
    ensures !rq.isInit ==> (key in opt <==> key in ops) && (key in opt ==> opt[key] == ops[key])
  {
  }

  lemma SettledSkip(excel: Handle, rq: OptionRequest, ops: map<string, Any>, nilOps: bool, done: set<string>,
                    ws: seq<Request>, opt: map<string, Any>, key: string)
    requires Settled(excel, rq, ops, nilOps, done, ws, opt) && key in rq.curs && key !in done
    requires !rq.isInit && key in ops && GoEqual(rq.curs[key], ops[key]) == Success(true)
    ensures Settled(excel, rq, ops, nilOps, done + {key}, ws, opt)
  {
    SettledUnwritten(excel, rq, ops, nilOps, done, ws, opt, key);
  }

  lemma SettledWrite(excel: Handle, rq: OptionRequest, ops: map<string, Any>, nilOps: bool, done: set<string>,
                     ws: seq<Request>, opt: map<string, Any>, key: string)
    requires Settled(excel, rq, ops, nilOps, done, ws, opt) && key in rq.curs && key !in done
    requires NeedsWrite(key, rq, ops) && !(!rq.isInit && Uncomparable(key, rq.curs, ops))
    requires WritePanic(key, rq, excel, nilOps).None?
    ensures Settled(excel, rq, ops, nilOps, done + {key}, ws + [Put(excel, key, rq.curs[key])],
                    if rq.isInit || nilOps then opt else opt[key := rq.curs[key]])
  {
    SettledUnwritten(excel, rq, ops, nilOps, done, ws, opt, key);
    OptionWritesSnoc(excel, rq.curs, ws, key);
    RestrictSnoc(ops, rq.curs, Names(ws), key);
  }

  /** Once every option is handled, nothing panicked and exactly the
      options that needed writing were written. */
  lemma SettledAll(excel: Handle, rq: OptionRequest, ops: map<string, Any>, nilOps: bool, ws: seq<Request>, opt: map<string, Any>)
    requires Settled(excel, rq, ops, nilOps, rq.curs.Keys, ws, opt)
    ensures !Panics(rq, ops, excel, nilOps)
    ensures forall key :: key in rq.curs ==> (key in Names(ws) <==> NeedsWrite(key, rq, ops))
  {
  }

  /** SetOption settles: once every changed option has been written, no
      option equal to itself under Go's == is changed or uncomparable any
      more, so the same request again writes nothing. */
  lemma SetOptionSettles(curs: map<string, Any>, ops: map<string, Any>, names: seq<string>)
    requires forall key :: key in curs ==> !Uncomparable(key, curs, ops)
    requires forall key :: key in curs ==> (key in names <==> Changed(key, curs, ops))
    requires forall key :: key in curs ==> SelfEqual(curs[key])
    ensures forall key :: key in curs ==>
              !Changed(key, curs, ops + Restrict(curs, names)) && !Uncomparable(key, curs, ops + Restrict(curs, names))
  {
    var after := ops + Restrict(curs, names);
    forall key | key in curs
      ensures !Changed(key, curs, after) && !Uncomparable(key, curs, after)
    {
      if key in names {
        assert after[key] == curs[key];
      } else {
        assert key in ops && after[key] == ops[key];
        assert GoEqual(curs[key], ops[key]).Success?;
      }
    }
  }

  /** An option requested with the value already recorded for it is
      written again exactly when that value is a float NaN, which Go's !=
      finds unequal to itself; so a NaN option never settles. */
  lemma SameValueRewritten(key: string, curs: map<string, Any>, ops: map<string, Any>)
    requires key in curs && key in ops && curs[key] == ops[key]
    requires !curs[key].GoMap? && !curs[key].OptionMap? && !curs[key].Func?
    ensures Changed(key, curs, ops) <==> IsNaNFloat(curs[key])
  {
    SelfEqualExactly(curs[key]);
  }

  /** SetOption records only what it could write: every value it adds to
      the Option map can be marshalled, so no map or func is ever recorded
      by it. */
  lemma RecordsOnlyMarshallable(excel: Handle, curs: map<string, Any>, ws: seq<Request>)
    requires OptionWrites(excel, curs, ws)
    ensures forall key :: key in Restrict(curs, Names(ws)) ==> Marshallable(Restrict(curs, Names(ws))[key])
  {
    forall key | key in Restrict(curs, Names(ws))
      ensures Marshallable(Restrict(curs, Names(ws))[key])
    {
      var k :| 0 <= k < |ws| && Names(ws)[k] == key;
      assert ws[k].value == curs[key];
    }
  }

  /** A map-valued option panics whatever is recorded for it: a new or
      differently typed value is written, and go-ole cannot marshal it; an
      Option map already recorded (one the MSO was created with) cannot be
      compared with it. */
  lemma MapOptionPanics(key: string, m: map<string, Any>, ops: map<string, Any>, excel: Handle, nilOps: bool)
    requires excel != 0
    ensures var rq := Requested([Str(key), OptionMap(m)], ops);
            && Panics(rq, ops, excel, nilOps)
            && (key !in ops || !ops[key].OptionMap? ==>
                  NeedsWrite(key, rq, ops) && WritePanic(key, rq, excel, nilOps) == Some(UNKNOWN_TYPE))
            && (key in ops && ops[key].OptionMap? ==> Uncomparable(key, rq.curs, ops))
  {
    var rq := Requested([Str(key), OptionMap(m)], ops);
    assert key in rq.curs && rq.curs[key] == OptionMap(m);
    if key in ops && !ops[key].OptionMap? {
      if ops[key].Func? {
        assert TypeName(ops[key])[0] == 'f';
      }
      assert TypeName(OptionMap(m)) != TypeName(ops[key]);
    }
  }

  // ---------------------------------------------------------------------
  // WorkBook.SaveAs

  /** The arguments WorkBook.SaveAs(args...) passes on to the COM call, or
      the panic of its type assertion. A string second argument is a
      format name, looked up in lower case: a known one becomes its code,
      and the file name gains "." + name unless it ends with it; an unknown
      one becomes nil. Only the first two arguments are ever touched. */
  function SaveAsArgs(args: seq<Any>, formats: map<string, int>): (r: Result<seq<Any>, string>)
    ensures r.Success? ==> |r.value| == |args|
    ensures r.Success? && |args| >= 2 ==> r.value[2..] == args[2..]
    ensures r.Failure? <==>
              && |args| >= 2 && AsGoString(args[1]).Some? && ToLower(AsGoString(args[1]).value) in formats
              && AsGoString(args[0]).None?
    ensures r.Failure? ==> r.error == NotStringPanic(args[0])
  {
    if |args| <= 1 then Success(args)
    else
      match AsGoString(args[1])
      case None => Success(args)
      case Some(f) =>
        var ffs := ToLower(f);
        if ffs in formats then
          match AsGoString(args[0])
          case None => Failure(NotStringPanic(args[0]))
          case Some(fn) =>
            var name := if HasSuffix(fn, "." + ffs) then args[0] else Str(fn + "." + ffs);
            Success(args[0 := name][1 := Int(formats[ffs])])
        else Success(args[1 := Nil])
  }

  /** The arguments after WorkBook.SaveAs returns: rewritten in place, or
      as they were when the type assertion panicked. */
  function SaveAsResult(args: seq<Any>, formats: map<string, int>): (r: seq<Any>)
    ensures |r| == |args|
  {
    match SaveAsArgs(args, formats)
    case Failure(_) => args
    case Success(b) => b
  }

  /** A known format name, in any case, becomes its code, and the file
      name gains "." + the lower-case name unless it already ends with it. */
  lemma SaveAsKnownFormat(args: seq<Any>, formats: map<string, int>)
    requires |args| >= 2 && AsGoString(args[1]).Some? && ToLower(AsGoString(args[1]).value) in formats
    requires AsGoString(args[0]).Some?
    ensures var ffs := ToLower(AsGoString(args[1]).value);
            var fn := AsGoString(args[0]).value;
            var r := SaveAsArgs(args, formats);
            && r.Success?
            && r.value[1] == Int(formats[ffs])
            && AsGoString(r.value[0]).Some?
            && AsGoString(r.value[0]).value == (if HasSuffix(fn, "." + ffs) then fn else fn + "." + ffs)
            && HasSuffix(AsGoString(r.value[0]).value, "." + ffs)
  {
    var ffs := ToLower(AsGoString(args[1]).value);
    var fn := AsGoString(args[0]).value;
    if !HasSuffix(fn, "." + ffs) {
      var n := fn + "." + ffs;
      assert n[|n| - |"." + ffs|..] == "." + ffs;
    }
  }

  /** An unknown format name becomes nil and leaves the file name alone;
      a second argument that is not a string is passed on unchanged. */
  lemma SaveAsOtherFormat(args: seq<Any>, formats: map<string, int>)
    requires |args| >= 2
    requires AsGoString(args[1]).Some? ==> ToLower(AsGoString(args[1]).value) !in formats
    ensures SaveAsArgs(args, formats) ==
              Success(if AsGoString(args[1]).Some? then args[1 := Nil] else args)
  {
  }

  /** Saving again under the format name with the rewritten file name
      rewrites nothing more: the extension is never appended twice. */
  lemma SaveAsIdempotent(args: seq<Any>, formats: map<string, int>)
    requires SaveAsArgs(args, formats).Success?
    requires |args| >= 2
    ensures SaveAsArgs(SaveAsArgs(args, formats).value[1 := args[1]], formats) == SaveAsArgs(args, formats)
  {
    var r := SaveAsArgs(args, formats).value;
    var again := r[1 := args[1]];
    if AsGoString(args[1]).Some? && ToLower(AsGoString(args[1]).value) in formats {
      SaveAsKnownFormat(args, formats);
      var ffs := ToLower(AsGoString(args[1]).value);
      assert again[0] == r[0] && again[1] == args[1];
      assert AsGoString(again[0]).Some? && HasSuffix(AsGoString(again[0]).value, "." + ffs);
      assert again[0 := again[0]][1 := Int(formats[ffs])] == r;
    } else if AsGoString(args[1]).Some? {
      assert r == args[1 := Nil];
      assert again == args;
    } else {
      assert r == args;
      assert again == args;
    }
  }

  /** The format name is case-insensitive: its lower-case form gives the
      same outcome. */
  lemma SaveAsCaseInsensitive(args: seq<Any>, formats: map<string, int>)
    requires |args| >= 2 && AsGoString(args[1]).Some?
    ensures SaveAsArgs(args[1 := Str(ToLower(AsGoString(args[1]).value))], formats) == SaveAsArgs(args, formats)
  {
    ToLowerIdempotent(AsGoString(args[1]).value);
    var lowered := args[1 := Str(ToLower(AsGoString(args[1]).value))];
    assert lowered[0 := lowered[0]] == lowered;
    var ffs := ToLower(AsGoString(args[1]).value);
    if ffs in formats && AsGoString(args[0]).Some? {
      var fn := AsGoString(args[0]).value;
      var name := if HasSuffix(fn, "." + ffs) then args[0] else Str(fn + "." + ffs);
      assert lowered[0 := name][1 := Int(formats[ffs])] == args[0 := name][1 := Int(formats[ffs])];
    } else if ffs !in formats {
      assert lowered[1 := Nil] == args[1 := Nil];
    }
  }

  /** The table: "CSV" saves "report" as "report.csv" with code 6, and
      "TXT" and "html" map to -4158 and 44. */
  lemma FormatTable()
    ensures SaveAsArgs([Str("report"), Str("CSV")], FILE_FORMATS) == Success([Str("report.csv"), Int(6)])
    ensures ToLower("TXT") in FILE_FORMATS && FILE_FORMATS[ToLower("TXT")] == -4158
    ensures ToLower("html") in FILE_FORMATS && FILE_FORMATS[ToLower("html")] == 44
  {
    assert ToLower("CSV") == "csv";
    assert ToLower("TXT") == "txt";
    assert ToLower("html") == "html";
    var n := "report.csv";
    assert !HasSuffix("report", ".csv") by {
      assert "report"[2..] != ".csv";
    }
    assert "report" + "." + "csv" == n;
    var args := [Str("report"), Str("CSV")];
    assert AsGoString(args[1]) == Some("CSV") && AsGoString(args[0]) == Some("report");
    assert args[0 := Str(n)][1 := Int(6)] == [Str(n), Int(6)];
  }

  // ---------------------------------------------------------------------
  // WorkBooks.SaveAs: numbered file names

  /** The name WorkBooks.SaveAs gives workbook i, as written:
      strings.Replace(full, ext, "_"+i+ext, 1). */
  function SuffixedNameAsWritten(full: string, i: nat): string {
    ReplaceFirst(full, Ext(full), "_" + Decimal(i) + Ext(full))
  }

  /** The name evidently intended for workbook i: "_i" between the stem and
      the extension of full. */
  function SuffixedName(full: string, i: nat): string {
    var ext := Ext(full);
    full[..|full| - |ext|] + "_" + Decimal(i) + ext
  }

  /** Different workbooks get different names. */
  lemma SuffixedNamesDistinct(full: string, i: nat, j: nat)
    requires i != j
    ensures SuffixedName(full, i) != SuffixedName(full, j)
  {
    var ext := Ext(full);
    var stem := full[..|full| - |ext|];
    if SuffixedName(full, i) == SuffixedName(full, j) {
      var a := SuffixedName(full, i);
      var di := Decimal(i);
      var dj := Decimal(j);
      assert |di| == |dj|;
      assert a[|stem| + 1..|a| - |ext|] == di;
      assert SuffixedName(full, j)[|stem| + 1..|a| - |ext|] == dj;
      DecimalInjective(i, j);
    }
  }

  /** Every numbered name keeps the extension of full, so the saved files
      keep their format. */
  lemma SuffixedNameKeepsExt(full: string, i: nat)
    ensures Ext(SuffixedName(full, i)) == Ext(full)
  {
    var ext := Ext(full);
    var d := "_" + Decimal(i);
    NoDotInNumber(i);
    RenamedParts(full, ext, d);
    if ext == "" {
      ExtStaysEmpty(full, d);
    } else {
      ExtOfDotted(full[..|full| - |ext|] + d, ext);
    }
  }

  /** A numbered name is the stem and the number, then the extension. */
  lemma RenamedParts(full: string, ext: string, d: string)
    requires |ext| <= |full| && |d| >= 1
    ensures var stem := full[..|full| - |ext|];
            && stem + [d[0]] + d[1..] + ext == (stem + d) + ext
            && (ext == [] ==> (stem + d) + ext == full + d)
  {
    var stem := full[..|full| - |ext|];
    assert [d[0]] + d[1..] == d;
    if ext == [] {
      assert stem == full;
    }
  }

  lemma NoDotInNumber(i: nat)
    ensures '.' !in "_" + Decimal(i)
  {
    var digits := Decimal(i);
    assert digits == Digits(i);
    assert AllDigits(digits);
    var d := "_" + digits;
    forall k | 0 <= k < |d| ensures d[k] != '.' {
      if k > 0 {
        assert d[k] == digits[k - 1];
      }
    }
  }

  /** As written, a name without an extension gets the number in front:
      "book" becomes "_0book", not "book_0". */
  lemma NameAsWrittenWithoutExt()
    ensures SuffixedNameAsWritten("book", 0) == "_0book"
    ensures SuffixedName("book", 0) == "book_0"
  {
    BookHasNoExt();
    assert Decimal(0) == "0";
    NoExtAsWritten();
    NoExtIntended();
  }

  lemma BookHasNoExt()
    ensures Ext("book") == ""
  {
    assert Ext("") == "";
    ExtStaysEmpty("", "book");
    assert "" + "book" == "book";
  }

  lemma NoExtAsWritten()
    requires Ext("book") == "" && Decimal(0) == "0"
    ensures SuffixedNameAsWritten("book", 0) == "_0book"
  {
  }

  lemma NoExtIntended()
    requires Ext("book") == "" && Decimal(0) == "0"
    ensures SuffixedName("book", 0) == "book_0"
  {
    assert "book"[..4] == "book";
  }

  /** As written, an extension that also occurs earlier in the path is
      numbered there: "a.xls\b.xls" becomes "a_1.xls\b.xls". */
  lemma NameAsWrittenEarlierExt()
    ensures SuffixedNameAsWritten("a.xls\\b.xls", 1) == "a_1.xls\\b.xls"
    ensures SuffixedName("a.xls\\b.xls", 1) == "a.xls\\b_1.xls"
  {
    EarlierExtOfExample();
    assert Decimal(1) == "1";
    EarlierExtAsWritten();
    EarlierExtIntended();
  }

  lemma EarlierExtAsWritten()
    requires Ext("a.xls\\b.xls") == ".xls" && Index("a.xls\\b.xls", ".xls") == Some(1) && Decimal(1) == "1"
    ensures SuffixedNameAsWritten("a.xls\\b.xls", 1) == "a_1.xls\\b.xls"
  {
    var full := "a.xls\\b.xls";
    assert SuffixedNameAsWritten(full, 1) == full[..1] + ("_" + "1" + ".xls") + full[5..];
    EarlierExtPieces();
  }

  lemma EarlierExtPieces()
    ensures var full := "a.xls\\b.xls";
            full[..1] + ("_" + "1" + ".xls") + full[5..] == "a_1.xls\\b.xls"
  {
    var full := "a.xls\\b.xls";
    assert full[..1] == "a";
    assert full[5..] == "\\b.xls";
  }

  lemma EarlierExtIntended()
    requires Ext("a.xls\\b.xls") == ".xls" && Decimal(1) == "1"
    ensures SuffixedName("a.xls\\b.xls", 1) == "a.xls\\b_1.xls"
  {
    var full := "a.xls\\b.xls";
    assert full[..|full| - 4] == "a.xls\\b";
    assert "a.xls\\b" + "_" + "1" + ".xls" == "a.xls\\b_1.xls";
  }

  lemma EarlierExtOfExample()
    ensures Ext("a.xls\\b.xls") == ".xls"
    ensures Index("a.xls\\b.xls", ".xls") == Some(1)
  {
    var full := "a.xls\\b.xls";
    ExtOfDotted("a.xls\\b", ".xls");
    assert "a.xls\\b" + ".xls" == full;
    assert !OccursAt(full, ".xls", 0) by {
      assert full[0] != '.';
    }
    assert OccursAt(full, ".xls", 1) by {
      assert full[1..5] == ".xls";
    }
    assert IndexFrom(full, ".xls", 1) == Some(1);
  }

  /** Where the extension occurs only at the end of full, the name as
      written is the intended one. */
  lemma NameAsWrittenAgrees(full: string, i: nat)
    requires Ext(full) != ""
    requires Index(full, Ext(full)) == Some(|full| - |Ext(full)|)
    ensures SuffixedNameAsWritten(full, i) == SuffixedName(full, i)
  {
    var ext := Ext(full);
    var n := |full| - |ext|;
    var repl := "_" + Decimal(i) + ext;
    assert SuffixedNameAsWritten(full, i) == full[..n] + repl + full[n + |ext|..];
    assert full[n + |ext|..] == [];
    assert full[..n] + repl + [] == full[..n] + "_" + Decimal(i) + ext;
  }

  /** The arguments workbook i of several is saved with, each workbook
      starting from the caller's arguments. */
  function NumberedArgs(a: seq<Any>, full: string, i: nat): seq<Any>
    requires |a| >= 1
  {
    a[0 := Str(SuffixedName(full, i))]
  }

  /** As written, every workbook's SaveAs rewrites the one argument slice
      that all of them share: the arguments before workbook i's name is
      set. */
  function SharedState(a: seq<Any>, full: string, i: nat, formats: map<string, int>): (r: seq<Any>)
    requires |a| >= 1
    ensures |r| == |a|
    decreases i, 0
  {
    if i == 0 then a
    else SaveAsResult(SharedCallArgs(a, full, i - 1, formats), formats)
  }

  /** As written, the arguments workbook i's SaveAs is called with. */
  function SharedCallArgs(a: seq<Any>, full: string, i: nat, formats: map<string, int>): (r: seq<Any>)
    requires |a| >= 1
    ensures |r| == |a|
    decreases i, 1
  {
    SharedState(a, full, i, formats)[0 := Str(SuffixedNameAsWritten(full, i))]
  }

  /** As written, once the first workbook has turned a known format name
      into its code, every later workbook finds a code there and is saved
      without the format's extension. */
  lemma {:induction false} SharedArgsLoseFormat(a: seq<Any>, full: string, i: nat, formats: map<string, int>)
    requires |a| >= 2 && AsGoString(a[1]).Some? && ToLower(AsGoString(a[1]).value) in formats
    requires i >= 1
    ensures var c := SharedCallArgs(a, full, i, formats);
            && c[1] == Int(formats[ToLower(AsGoString(a[1]).value)])
            && SaveAsArgs(c, formats) == Success(c)
            && c[0] == Str(SuffixedNameAsWritten(full, i))
    decreases i
  {
    var code := formats[ToLower(AsGoString(a[1]).value)];
    var prev := SharedCallArgs(a, full, i - 1, formats);
    if i == 1 {
      assert prev == a[0 := Str(SuffixedNameAsWritten(full, 0))];
      SaveAsKnownFormat(prev, formats);
    } else {
      SharedArgsLoseFormat(a, full, i - 1, formats);
    }
    assert SharedState(a, full, i, formats)[1] == Int(code);
  }

  /** The intended behaviour: every workbook's file name gains the format's
      extension, because each starts from the caller's arguments. */
  lemma NumberedArgsKeepFormat(a: seq<Any>, full: string, i: nat, formats: map<string, int>)
    requires |a| >= 2 && AsGoString(a[1]).Some? && ToLower(AsGoString(a[1]).value) in formats
    ensures var ffs := ToLower(AsGoString(a[1]).value);
            var r := SaveAsArgs(NumberedArgs(a, full, i), formats);
            && r.Success? && r.value[1] == Int(formats[ffs])
            && AsGoString(r.value[0]).Some? && HasSuffix(AsGoString(r.value[0]).value, "." + ffs)
  {
    SaveAsKnownFormat(NumberedArgs(a, full, i), formats);
  }

  // ---------------------------------------------------------------------
  // The MSO handle

  class MSO {
    /** The COM server Excel runs in. */
    const server: Server
    /** IdExcel, the Excel.Application object. */
    const excel: Handle
    /** FILEFORMAT, the format table WorkBook.SaveAs consults. */
    const fileFormat: map<string, int>
    /** The embedded Option map: the options last written. */
    var option: map<string, Any>
    /** The Option map is nil, as New(nil) leaves it: it reads as empty, and
        recording an option in it panics. */
    const optionNil: bool

    constructor (server: Server, excel: Handle, option: map<string, Any>, optionNil: bool)
      requires optionNil ==> option == map[]
      ensures this.server == server && this.excel == excel && this.option == option && this.optionNil == optionNil
      ensures fileFormat == FILE_FORMATS
    {
      this.server := server;
      this.excel := excel;
      this.option := option;
      this.optionNil := optionNil;
      fileFormat := FILE_FORMATS;
    }

    /** The error SetOption returns when nothing panicked: the last write's,
        wrapped, or nil. */
    function LastError(ws: seq<Request>): Option<string> {
      Reported("SetOption", LastResponse(ws), None)
    }

    /** The error the last of the writes ws returned, if any. */
    function LastResponse(ws: seq<Request>): Option<string> {
      if |ws| > 0 then server.respond(ws[|ws| - 1]) else None
    }

    /** SetOption: ranges over the requested options in an order the model
        leaves open. The initial request writes every option; any other
        writes exactly the options that are new or changed and records them
        in the Option map, unless that map is nil. The error is the last
        write's, wrapped as "%SetOption%..."; a panic is recovered as
        "@SetOption: ...". */
    method SetOption(args: seq<Any>) returns (err: Option<string>)
      modifies this, server
      ensures old(server.log) <= server.log
      ensures var rq := Requested(args, old(option));
              var ws := server.log[|old(server.log)|..];
              && OptionWrites(excel, rq.curs, ws)
              && OnlyNeededWritten(rq, old(option), ws)
              && option == (if rq.isInit || optionNil then old(option) else old(option) + Restrict(rq.curs, Names(ws)))
      ensures var rq := Requested(args, old(option));
              var ws := server.log[|old(server.log)|..];
              !Panics(rq, old(option), excel, optionNil) ==>
                && (forall key :: key in rq.curs ==> (key in Names(ws) <==> NeedsWrite(key, rq, old(option))))
                && err == LastError(ws)
      ensures var rq := Requested(args, old(option));
              Panics(rq, old(option), excel, optionNil) ==>
                exists p :: PanicOf(p, rq, old(option), excel, optionNil) && err == Some(Recovered("SetOption", p))
    {
      var rq := Requested(args, option);
      var panic, last := SettleOptions(rq);
      err := Reported("SetOption", last, panic);
      if panic.Some? {
        assert PanicOf(panic.value, rq, old(option), excel, optionNil) && err == Some(Recovered("SetOption", panic.value));
      }
    }

    /** The loop of SetOption: handles the options of rq one by one and
        stops at the first panic, returning its text, or else the error of
        the last write. */
    method SettleOptions(rq: OptionRequest) returns (panic: Option<string>, last: Option<string>)
      modifies this, server
      ensures old(server.log) <= server.log
      ensures var ws := server.log[|old(server.log)|..];
              && OptionWrites(excel, rq.curs, ws)
              && OnlyNeededWritten(rq, old(option), ws)
              && option == (if rq.isInit || optionNil then old(option) else old(option) + Restrict(rq.curs, Names(ws)))
      ensures panic.None? ==>
                && !Panics(rq, old(option), excel, optionNil)
                && (forall key :: key in rq.curs ==>
                      (key in Names(server.log[|old(server.log)|..]) <==> NeedsWrite(key, rq, old(option))))
                && last == LastResponse(server.log[|old(server.log)|..])
      ensures panic.Some? ==> Panics(rq, old(option), excel, optionNil) && PanicOf(panic.value, rq, old(option), excel, optionNil)
    {
      ghost var before := server.log;
      ghost var ops0 := option;
      var curs := rq.curs;
      var remaining := curs.Keys;
      panic, last := None, None;
      while remaining != {}
        invariant remaining <= curs.Keys
        invariant before <= server.log
        invariant Settled(excel, rq, ops0, optionNil, curs.Keys - remaining, server.log[|before|..], option)
        invariant last == LastResponse(server.log[|before|..])
        decreases remaining
      {
        var key :| key in remaining;
        ghost var done := curs.Keys - remaining;
        var stop: Option<string>;
        stop, last := SettleOption(rq, key, ops0, done, before, last);
        if stop.Some? {
          return stop, last;
        }
        assert curs.Keys - (remaining - {key}) == done + {key};
        remaining := remaining - {key};
      }
      assert curs.Keys - remaining == curs.Keys;
      SettledAll(excel, rq, ops0, optionNil, server.log[|before|..], option);
    }

    /** One step of SetOption's loop: handles the option key, given that
        the options in done are handled. */
    method SettleOption(rq: OptionRequest, key: string, ghost ops0: map<string, Any>, ghost done: set<string>,
                        ghost before: seq<Request>, last0: Option<string>)
      returns (panic: Option<string>, last: Option<string>)
      modifies this, server
      requires key in rq.curs && key !in done && before <= server.log
      requires Settled(excel, rq, ops0, optionNil, done, server.log[|before|..], option)
      requires last0 == LastResponse(server.log[|before|..])
      ensures before <= server.log && old(server.log) <= server.log
      ensures var ws := server.log[|before|..];
              && OptionWrites(excel, rq.curs, ws)
              && OnlyNeededWritten(rq, ops0, ws)
              && option == (if rq.isInit || optionNil then ops0 else ops0 + Restrict(rq.curs, Names(ws)))
      ensures panic.None? ==>
                && Settled(excel, rq, ops0, optionNil, done + {key}, server.log[|before|..], option)
                && last == LastResponse(server.log[|before|..])
      ensures panic.Some? ==> Panics(rq, ops0, excel, optionNil) && PanicOf(panic.value, rq, ops0, excel, optionNil)
    {
      ghost var ws := server.log[|before|..];
      SettledUnwritten(excel, rq, ops0, optionNil, done, ws, option, key);
      var val := rq.curs[key];
      var write := true;
      panic, last := None, last0;
      if !rq.isInit && key in option {
        var eq := GoEqual(val, option[key]);
        if eq.Failure? {
          assert Uncomparable(key, rq.curs, ops0);
          return Some(eq.error), last;
        }
        write := !eq.value;
      }
      if write {
        assert NeedsWrite(key, rq, ops0);
        panic, last := WriteOption(rq, key, ops0, done, before, last0);
      } else {
        SettledSkip(excel, rq, ops0, optionNil, done, ws, option, key);
      }
    }

    /** The write of one option that needs it: a PutProperty on the
        application, then, outside InitOption, recording the value in the
        Option map. */
    method WriteOption(rq: OptionRequest, key: string, ghost ops0: map<string, Any>, ghost done: set<string>,
                       ghost before: seq<Request>, last0: Option<string>)
      returns (panic: Option<string>, last: Option<string>)
      modifies this, server
      requires key in rq.curs && key !in done && before <= server.log
      requires Settled(excel, rq, ops0, optionNil, done, server.log[|before|..], option)
      requires NeedsWrite(key, rq, ops0) && !(!rq.isInit && Uncomparable(key, rq.curs, ops0))
      ensures before <= server.log && old(server.log) <= server.log
      ensures var ws := server.log[|before|..];
              && OptionWrites(excel, rq.curs, ws)
              && OnlyNeededWritten(rq, ops0, ws)
              && option == (if rq.isInit || optionNil then ops0 else ops0 + Restrict(rq.curs, Names(ws)))
      ensures panic.None? ==>
                && Settled(excel, rq, ops0, optionNil, done + {key}, server.log[|before|..], option)
                && last == LastResponse(server.log[|before|..])
      ensures panic.Some? ==> Panics(rq, ops0, excel, optionNil) && PanicOf(panic.value, rq, ops0, excel, optionNil)
    {
      ghost var ws := server.log[|before|..];
      SettledUnwritten(excel, rq, ops0, optionNil, done, ws, option, key);
      var val := rq.curs[key];
      var r := server.PutProp(excel, key, val);
      if r.Failure? {
        assert WritePanic(key, rq, excel, optionNil) == Some(r.error);
        return Some(r.error), last0;
      }
      assert server.log[|before|..] == ws + [Put(excel, key, val)];
      last := r.value;
      if !rq.isInit && optionNil {
        OptionWritesSnoc(excel, rq.curs, ws, key);
        assert WritePanic(key, rq, excel, optionNil) == Some(NIL_MAP_WRITE);
        return Some(NIL_MAP_WRITE), last;
      }
      SettledWrite(excel, rq, ops0, optionNil, done, ws, option, key);
      if !rq.isInit {
        option := option[key := val];
      }
      panic := None;
    }

    /** The error WorkBook.SaveAs(args...) on wb returns. */
    function SaveAsError(wb: Handle, a: seq<Any>): Option<string> {
      match SaveAsArgs(a, fileFormat)
      case Failure(p) => Reported("WorkBook.SaveAs", None, Some(p))
      case Success(b) =>
        if wb == 0 then Reported("WorkBook.SaveAs", None, Some(NIL_DEREF))
        else if !AllMarshallable(b) then Reported("WorkBook.SaveAs", None, Some(UNKNOWN_TYPE))
        else Reported("WorkBook.SaveAs", server.respond(Invoke(wb, "SaveAs", b)), None)
    }

    /** The call WorkBook.SaveAs(args...) on wb makes, if any. */
    function SaveAsLog(wb: Handle, a: seq<Any>): seq<Request> {
      match SaveAsArgs(a, fileFormat)
      case Failure(_) => []
      case Success(b) => if wb == 0 || !AllMarshallable(b) then [] else [Invoke(wb, "SaveAs", b)]
    }

    /** WorkBook.SaveAs: rewrites the caller's arguments in place, then
        calls SaveAs with them. */
    method WorkBookSaveAs(wb: Handle, args: array<Any>) returns (err: Option<string>)
      modifies args, server
      ensures args[..] == SaveAsResult(old(args[..]), fileFormat)
      ensures server.log == old(server.log) + SaveAsLog(wb, old(args[..]))
      ensures err == SaveAsError(wb, old(args[..]))
    {
      if args.Length > 1 {
        var f := AsGoString(args[1]);
        if f.Some? {
          var ffs := ToLower(f.value);
          if ffs in fileFormat {
            var fn := AsGoString(args[0]);
            if fn.None? {
              return Reported("WorkBook.SaveAs", None, Some(NotStringPanic(args[0])));
            }
            if !HasSuffix(fn.value, "." + ffs) {
              args[0] := Str(fn.value + "." + ffs);
            }
            args[1] := Int(fileFormat[ffs]);
          } else {
            args[1] := Nil;
          }
        }
      }
      var r := server.CallMethod(wb, "SaveAs", args[..]);
      match r
      case Failure(p) => err := Reported("WorkBook.SaveAs", None, Some(p));
      case Success(e) => err := Reported("WorkBook.SaveAs", e, None);
    }

    /** The calls the first k of several workbooks make, each starting from
        the caller's arguments. */
    function NumberedLogs(wbs: seq<Handle>, a: seq<Any>, full: string, k: nat): seq<Request>
      requires |a| >= 1 && k <= |wbs|
    {
      if k == 0 then [] else NumberedLogs(wbs, a, full, k - 1) + SaveAsLog(wbs[k - 1], NumberedArgs(a, full, k - 1))
    }

    /** As written, the calls the first k of several workbooks make. */
    function SharedLogs(wbs: seq<Handle>, a: seq<Any>, full: string, k: nat): seq<Request>
      requires |a| >= 1 && k <= |wbs|
    {
      if k == 0 then [] else SharedLogs(wbs, a, full, k - 1) + SaveAsLog(wbs[k - 1], SharedCallArgs(a, full, k - 1, fileFormat))
    }

    /** The errors of the first k of several workbooks, each starting from
        the caller's arguments. */
    function NumberedErrors(wbs: seq<Handle>, a: seq<Any>, full: string, k: nat): (r: seq<Option<string>>)
      requires |a| >= 1 && k <= |wbs|
      ensures |r| == k
    {
      if k == 0 then [] else NumberedErrors(wbs, a, full, k - 1) + [SaveAsError(wbs[k - 1], NumberedArgs(a, full, k - 1))]
    }

    /** As written, the errors of the first k of several workbooks. */
    function SharedErrors(wbs: seq<Handle>, a: seq<Any>, full: string, k: nat): (r: seq<Option<string>>)
      requires |a| >= 1 && k <= |wbs|
      ensures |r| == k
    {
      if k == 0 then [] else SharedErrors(wbs, a, full, k - 1) + [SaveAsError(wbs[k - 1], SharedCallArgs(a, full, k - 1, fileFormat))]
    }

    lemma {:induction false} NumberedErrorsAt(wbs: seq<Handle>, a: seq<Any>, full: string, k: nat)
      requires |a| >= 1 && k <= |wbs|
      ensures forall i :: 0 <= i < k ==> NumberedErrors(wbs, a, full, k)[i] == SaveAsError(wbs[i], NumberedArgs(a, full, i))
      decreases k
    {
      if k > 0 {
        NumberedErrorsAt(wbs, a, full, k - 1);
      }
    }

    lemma {:induction false} SharedErrorsAt(wbs: seq<Handle>, a: seq<Any>, full: string, k: nat)
      requires |a| >= 1 && k <= |wbs|
      ensures forall i :: 0 <= i < k ==> SharedErrors(wbs, a, full, k)[i] == SaveAsError(wbs[i], SharedCallArgs(a, full, i, fileFormat))
      decreases k
    {
      if k > 0 {
        SharedErrorsAt(wbs, a, full, k - 1);
        var front := SharedErrors(wbs, a, full, k - 1);
        var x := SaveAsError(wbs[k - 1], SharedCallArgs(a, full, k - 1, fileFormat));
        assert SharedErrors(wbs, a, full, k) == front + [x];
        forall i | 0 <= i < k
          ensures SharedErrors(wbs, a, full, k)[i] == SaveAsError(wbs[i], SharedCallArgs(a, full, i, fileFormat))
        {
          if i < k - 1 {
            assert (front + [x])[i] == front[i];
          }
        }
      }
    }

    /** WorkBooks.SaveAs as written: with two or more workbooks, sets
        args[0] to workbook i's numbered name (strings.Replace) and saves
        it with the shared argument slice, which each SaveAs rewrites. An
        empty or non-string args[0] panics out of the method. */
    method WorkBooksSaveAsShared(wbs: seq<Handle>, args: array<Any>) returns (errs: seq<Option<string>>, panicked: Option<string>)
      modifies args, server
      ensures |wbs| == 0 ==> errs == [] && panicked == None && args[..] == old(args[..]) && server.log == old(server.log)
      ensures |wbs| == 1 ==>
                && panicked == None && errs == [SaveAsError(wbs[0], old(args[..]))]
                && args[..] == SaveAsResult(old(args[..]), fileFormat)
                && server.log == old(server.log) + SaveAsLog(wbs[0], old(args[..]))
      ensures |wbs| >= 2 && (args.Length == 0 || AsGoString(old(args[0])).None?) ==>
                && errs == [] && args[..] == old(args[..]) && server.log == old(server.log)
                && panicked == Some(if args.Length == 0 then INDEX_PANIC else NotStringPanic(old(args[0])))
      ensures |wbs| >= 2 && args.Length >= 1 && AsGoString(old(args[0])).Some? ==>
                var full := AsGoString(old(args[0])).value;
                && panicked == None && |errs| == |wbs|
                && (forall i :: 0 <= i < |wbs| ==> errs[i] == SaveAsError(wbs[i], SharedCallArgs(old(args[..]), full, i, fileFormat)))
                && server.log == old(server.log) + SharedLogs(wbs, old(args[..]), full, |wbs|)
                && args[..] == SharedState(old(args[..]), full, |wbs|, fileFormat)
    {
      errs, panicked := [], None;
      if |wbs| < 2 {
        if |wbs| == 1 {
          var e := WorkBookSaveAs(wbs[0], args);
          errs := [e];
        }
        return;
      }
      if args.Length == 0 {
        return [], Some(INDEX_PANIC);
      }
      var full := AsGoString(args[0]);
      if full.None? {
        return [], Some(NotStringPanic(args[0]));
      }
      ghost var a := args[..];
      errs := SaveShared(wbs, args, full.value);
      SharedErrorsAt(wbs, a, full.value, |wbs|);
    }

    /** The loop of WorkBooksSaveAsShared. */
    method SaveShared(wbs: seq<Handle>, args: array<Any>, full: string) returns (errs: seq<Option<string>>)
      requires args.Length >= 1
      modifies args, server
      ensures errs == SharedErrors(wbs, old(args[..]), full, |wbs|)
      ensures server.log == old(server.log) + SharedLogs(wbs, old(args[..]), full, |wbs|)
      ensures args[..] == SharedState(old(args[..]), full, |wbs|, fileFormat)
    {
      ghost var a := args[..];
      errs := [];
      var i := 0;
      while i < |wbs|
        invariant 0 <= i <= |wbs|
        invariant args[..] == SharedState(a, full, i, fileFormat)
        invariant errs == SharedErrors(wbs, a, full, i)
        invariant server.log == old(server.log) + SharedLogs(wbs, a, full, i)
      {
        var e := SaveSharedAt(wbs, args, full, i, a);
        errs := errs + [e];
        i := i + 1;
      }
    }

    /** One round of SaveShared: name workbook i in the shared slice, then
        save it with that slice. */
    method SaveSharedAt(wbs: seq<Handle>, args: array<Any>, full: string, i: nat, ghost a: seq<Any>) returns (e: Option<string>)
      requires i < |wbs| && |a| >= 1 && args[..] == SharedState(a, full, i, fileFormat)
      modifies args, server
      ensures args[..] == SharedState(a, full, i + 1, fileFormat)
      ensures server.log == old(server.log) + SaveAsLog(wbs[i], SharedCallArgs(a, full, i, fileFormat))
      ensures e == SaveAsError(wbs[i], SharedCallArgs(a, full, i, fileFormat))
    {
      args[0] := Str(SuffixedNameAsWritten(full, i));
      assert args[..] == SharedCallArgs(a, full, i, fileFormat);
      e := WorkBookSaveAs(wbs[i], args);
    }

    /** WorkBooks.SaveAs as intended: with two or more workbooks, workbook i
        is saved as if alone, with the caller's arguments and its numbered
        name; args[0] is left holding the last name, as in the source. */
    method WorkBooksSaveAs(wbs: seq<Handle>, args: array<Any>) returns (errs: seq<Option<string>>, panicked: Option<string>)
      modifies args, server
      ensures |wbs| == 0 ==> errs == [] && panicked == None && args[..] == old(args[..]) && server.log == old(server.log)
      ensures |wbs| == 1 ==>
                && panicked == None && errs == [SaveAsError(wbs[0], old(args[..]))]
                && args[..] == SaveAsResult(old(args[..]), fileFormat)
                && server.log == old(server.log) + SaveAsLog(wbs[0], old(args[..]))
      ensures |wbs| >= 2 && (args.Length == 0 || AsGoString(old(args[0])).None?) ==>
                && errs == [] && args[..] == old(args[..]) && server.log == old(server.log)
                && panicked == Some(if args.Length == 0 then INDEX_PANIC else NotStringPanic(old(args[0])))
      ensures |wbs| >= 2 && args.Length >= 1 && AsGoString(old(args[0])).Some? ==>
                var full := AsGoString(old(args[0])).value;
                && panicked == None && |errs| == |wbs|
                && (forall i :: 0 <= i < |wbs| ==> errs[i] == SaveAsError(wbs[i], NumberedArgs(old(args[..]), full, i)))
                && server.log == old(server.log) + NumberedLogs(wbs, old(args[..]), full, |wbs|)
                && args[..] == NumberedArgs(old(args[..]), full, |wbs| - 1)
    {
      errs, panicked := [], None;
      if |wbs| < 2 {
        if |wbs| == 1 {
          var e := WorkBookSaveAs(wbs[0], args);
          errs := [e];
        }
        return;
      }
      if args.Length == 0 {
        return [], Some(INDEX_PANIC);
      }
      var full := AsGoString(args[0]);
      if full.None? {
        return [], Some(NotStringPanic(args[0]));
      }
      ghost var a := args[..];
      errs := SaveNumbered(wbs, args, full.value);
      NumberedErrorsAt(wbs, a, full.value, |wbs|);
    }

    /** The loop of WorkBooksSaveAs: each workbook gets its own copy of the
        arguments. */
    method SaveNumbered(wbs: seq<Handle>, args: array<Any>, full: string) returns (errs: seq<Option<string>>)
      requires args.Length >= 1 && |wbs| >= 1
      modifies args, server
      ensures errs == NumberedErrors(wbs, old(args[..]), full, |wbs|)
      ensures server.log == old(server.log) + NumberedLogs(wbs, old(args[..]), full, |wbs|)
      ensures args[..] == NumberedArgs(old(args[..]), full, |wbs| - 1)
    {
      ghost var a := args[..];
      errs := [];
      var i := 0;
      while i < |wbs|
        invariant 0 <= i <= |wbs|
        invariant |a| == args.Length && args[..][1..] == a[1..]
        invariant i > 0 ==> args[..] == NumberedArgs(a, full, i - 1)
        invariant errs == NumberedErrors(wbs, a, full, i)
        invariant server.log == old(server.log) + NumberedLogs(wbs, a, full, i)
      {
        var e := SaveNumberedAt(wbs[i], args, full, i, a);
        errs := errs + [e];
        i := i + 1;
      }
    }

    /** One round of SaveNumbered: name workbook i in args, then save it
        with a copy of args, which its SaveAs may rewrite. */
    method SaveNumberedAt(wb: Handle, args: array<Any>, full: string, i: nat, ghost a: seq<Any>) returns (e: Option<string>)
      requires |a| >= 1 && |a| == args.Length && args[..][1..] == a[1..]
      modifies args, server
      ensures args[..] == NumberedArgs(a, full, i)
      ensures server.log == old(server.log) + SaveAsLog(wb, NumberedArgs(a, full, i))
      ensures e == SaveAsError(wb, NumberedArgs(a, full, i))
    {
      args[0] := Str(SuffixedName(full, i));
      ghost var c := args[..];
      assert c == NumberedArgs(a, full, i) by {
        assert c[1..] == a[1..];
      }
      var own := new Any[args.Length](j requires 0 <= j < args.Length reads args => args[j]);
      assert own[..] == c;
      e := WorkBookSaveAs(wb, own);
    }
  }
}
