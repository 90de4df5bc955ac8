# excel: the automation helpers of an Excel-over-COM library, in Dafny

The Go package `excel` drives Microsoft Excel through OLE Automation
(IDispatch). Most of it forwards calls to COM. This project models the
self-contained logic inside it, and proves properties of that model:

- **Variants** (`variants.dfy`). Covers `VARIANT.Value`, which decodes a
  VARIANT by its VARENUM tag, and `String`, which renders the decoded Go
  value as text. Go's `interface{}` values become the datatype `Any`. The
  8-byte payload is a sequence of bytes, least significant first.
- **Faults** (`faults.dfy`). Covers `Except`, the deferred handler that
  turns a recovered panic into `"@info: panic"` and wraps an error that was
  returned as `"%info%msg"`. Also covers `DoFuncs`, which splits a mixed
  list into calls: each function value with the values after it.
- **Automation** (`automation.dfy`). Covers the generic accessors
  `GetProperty` and `PutProperty`. The COM world is the class
  `Automation.Server`: a map from object handle to its readable properties,
  and a log of every property write and method call. An oracle gives the
  error the server answers each request with. Handle 0 is a nil
  `*ole.IDispatch`.
- **Workbooks** (`workbooks.dfy`). Covers the class `Workbooks.MSO` (the
  `*MSO` handle) with `SetOption`, `WorkBook.SaveAs` and `WorkBooks.SaveAs`.
  `SetOption` updates the option map in place and writes each new or
  changed option to Excel. `WorkBook.SaveAs` maps a format name to its
  XlFileFormat code. `WorkBooks.SaveAs` saves each workbook under a
  numbered file name.
- **GoStrings** (`gostrings.dfy`) and **Wrappers** (`wrappers.dfy`). The
  parts of `strconv`, `strings` and `path/filepath` that the helpers call,
  plus Option and Result.

How the source's behaviour is represented:

- A Go panic is represented by the text it prints.
- A loop over a Go map takes keys in an order the model leaves open (a
  `:|` choice). Each property stated about such a loop holds for every
  order.
- The text of floats and dates comes from a caller-supplied renderer
  (`RealFormatter`).
- `WorkBook.SaveAs` writes into the caller's argument slice, as Go's
  variadic `args...` passing makes it do. So the argument list is an
  `array` shared between the caller and the callee.

## Model

| member | source | states |
|---|---|---|
| Variants.Unsigned | excel.go:544-553 | an unsigned little-endian read of n bytes lies in [0, 256^n) |
| Variants.Signed | excel.go:522-525 | a two's-complement read of n bytes lies in [-2^(8n-1), 2^(8n-1)) |
| Variants.UnsignedRoundTrip | excel.go:544-553 | writing an n-byte unsigned value into the payload and reading it back gives the value |
| Variants.SignedRoundTrip | excel.go:522-525 | writing an n-byte signed value in two's complement and reading it back gives the value |
| Variants.Value | excel.go:516-558 | tags 0 and 1 give "" and tag 10 gives "#VT_ERROR" whatever the payload; the VARIANT comes back unchanged exactly for tag 9 and for tags outside {0,1,2,3,4,5,7,8,9,10,11,16..21}; every integer result lies in the range of its Go type |
| Variants.IntegerTagRoundTrip | excel.go:522-553 | for tags 2, 3, 16..21, a value of the tag's Go type encoded into the low 1, 2, 4 or 8 payload bytes decodes to that value as that type, whatever the higher bytes hold |
| Variants.String | excel.go:561-597 | a string is returned unchanged; true gives "true" and false gives "false"; a passthrough VARIANT, nil, a function or a map gives "" |
| Variants.StringOfInteger | excel.go:563-584 | every integer kind renders as a canonical base-10 numeral that parses back to its value, with a leading '-' exactly for negatives |
| Variants.DecodedIntegerText | excel.go:477 | rendering a decoded integer tag gives the numeral of the integer encoded into the payload |
| Variants.AsGoString | excel.go:298-301 | the assertion `.(string)` succeeds exactly for a string and for a float-or-date payload whose tag is neither float32 nor float64 (a decoded date is a string) |
| Variants.AsGoStringByType | excel.go:298-301 | the assertion `.(string)` succeeds exactly when the value's dynamic type is string |
| Variants.GoEqual | excel.go:133 | Go's comparison of interface values panics exactly for two maps or two funcs of one type; values of different dynamic types are never equal; floats compare by IEEE 754 value |
| Variants.GoEqualReflexive | excel.go:133 | a comparable value that is not a NaN float equals itself |
| Variants.SelfEqualExactly | excel.go:133 | a value fails to equal itself exactly when it is a map, a func or a NaN float |
| Variants.NaNNotEqual | excel.go:133 | a NaN float32 or float64 compares unequal to the very same value |
| Variants.SignedZerosEqual | excel.go:133 | any two zeros of one float type are equal, whatever their sign bits and texts |
| Variants.ZeroIsNotNaN | excel.go:133 | a float whose bits below the sign are all clear is not a NaN |
| Variants.Float32HighBytesIgnored | excel.go:526-527 | a float32 is read from the 4 low payload bytes only, so payloads that agree there are equal floats unless they hold a NaN |
| Variants.QuietNaN | excel.go:528-529 | the float64 payload 0x7FF8000000000000 is a NaN |
| Variants.NegativeZero | excel.go:528-529 | the float64 payload holding only the sign bit is a zero |
| GoStrings.DecimalRoundTrip | excel.go:563-584 | FormatInt/FormatUint/Itoa produce a canonical numeral that reads back as the number, '-' exactly for negatives |
| GoStrings.DecimalInjective | excel.go:258 | different numbers get different numerals |
| GoStrings.Split | excel.go:476 | no piece holds the separator; there are at least two pieces exactly when the input holds it |
| GoStrings.SplitJoin | excel.go:476 | joining the pieces of a split with the separator gives back the input |
| GoStrings.Index | excel.go:258 | the position found is an occurrence, with none before it; no result means no occurrence |
| GoStrings.ToLower | excel.go:299 | lower-casing keeps the length |
| GoStrings.ToLowerIdempotent | excel.go:299 | lower-casing twice is lower-casing once |
| GoStrings.Ext | excel.go:256 | a non-empty extension starts with '.', ends the path and holds no further '.' or separator; it is empty exactly when the last path element has no '.' |
| GoStrings.ExtOfDotted | excel.go:256 | a '.' followed by ordinary characters is the extension of every path it ends |
| GoStrings.ExtStaysEmpty | excel.go:256 | appending characters other than '.' to a path without an extension leaves it without one |
| Faults.Except | excel.go:600-612 | with an error slot, a recovered panic becomes "@info: panic"; otherwise a returned error msg becomes "%info%msg" and no error stays no error; without a slot nothing is reported; the trailing funcs are called as DoFuncs groups them |
| Faults.Reported | excel.go:600-608 | the error a helper deferring Except(info, &err) returns: "@info: panic" after a panic, else "%info%msg" for a returned msg, else none |
| Faults.ExceptIsReversible | excel.go:603-607 | the two kinds of message are told apart by their first character; a wrapped message starts with "%info%" and gives back the original after it |
| Faults.DoFuncs | excel.go:615-633 | the loop with its held function and argument accumulator makes exactly the calls of CallGroups |
| Faults.CallGroupsFlatten | excel.go:617-631 | the calls laid end to end, each function followed by its arguments, give back the input without its leading non-function values |
| Faults.CallGroupsCount | excel.go:620-631 | one call is made per function value |
| Faults.CallGroupsShape | excel.go:620-627 | every call is of a function value and no argument is a function value |
| Automation.Server.Step | excel.go:469-470 | a step down a property path that succeeds reaches a non-nil object |
| Automation.Server.Walk | excel.go:468-471 | walking an empty path stays put; walking a non-empty path that succeeds reaches a non-nil object |
| Automation.Server.WalkAppend | excel.go:468-471 | walking a + b is walking a and then b from where a stops, and a panic on a stops the walk |
| Automation.Server.WalkPath | excel.go:468-471 | the loop of one MustGetProperty and ToIDispatch per path name ends where Walk says, or with the first panic |
| Automation.Server.WalkUnfold | excel.go:469-470 | walking from the i-th name is one step followed by a walk from the next name |
| Automation.Server.GetProperty | excel.go:462-485 | the loop returns the value Get specifies and no error, or nil and "@GetProperty: panic" for the panic Get specifies |
| Automation.Server.GatherItems | excel.go:475-478 | the key loop gives the "key:value" items of every key in order, or the panic of the first missing key |
| Automation.Server.GetOfNamedRead | excel.go:467-482 | GetProperty with a path and a last argument reads that argument on the object the path leads to |
| Automation.Server.MultiGetSplits | excel.go:474-479 | a successful multi-property read splits back on ',' into the "key:value" items in key order, each after the first behind one space, provided no value's text holds ',' |
| Automation.Server.MultiGetExample | excel.go:474-479 | reading "Name,Count" gives "Name:Book1, Count:3", while "Name, Count" fails because the key " Count" is not trimmed |
| Automation.Server.ExampleItems | excel.go:475-479 | worked example: the items of the example read are "Name:Book1" and "Count:3", joined by ", " |
| Automation.Server.UntrimmedKeyMissing | excel.go:476-477 | the untrimmed key " Count" is not a property, so the multi-property read fails |
| Automation.Server.ThreeAsInt32 | excel.go:524-525 | worked example: a tag-3 payload holding 3 renders as "3" |
| Automation.Server.PutProp | excel.go:492-507 | a write through a nil handle panics, a map or func value panics with go-ole's "unknown type", both writing nothing; any other write is logged and answered |
| Automation.Server.CallMethod | excel.go:311 | a call through a nil handle or with a map or func argument panics and is not logged; any other call is logged and answered |
| Automation.Server.OneArgumentWritesValue | excel.go:492-494 | one argument plans a write of the "Value" property of h, or the nil-handle panic when h is nil |
| Automation.Server.PlanShape | excel.go:495-507 | a planned write goes through a non-nil handle; with two or more arguments it spreads a trailing map[string]interface{} over its entries and writes any other last argument whole to the property the argument before it names |
| Automation.Server.PutProperty | excel.go:488-513 | no arguments is the error "%PutProperty%args is empty" and writes nothing; a panic while resolving the arguments writes nothing and is recovered; one argument or a name/value pair makes one logged write, unless go-ole cannot marshal the value; a trailing map writes its entries one by one up to the first failing or unmarshallable write |
| Automation.Server.Resolve | excel.go:491-507 | the argument handling loop ends with the plan Plan gives: the "Value" write, the named write or the map write, or the first panic |
| Automation.Server.Perform | excel.go:494-507 | carrying out a plan logs the writes PlanDone describes and returns their error, recovered as "@PutProperty: ..." |
| Automation.Server.PutEntries | excel.go:503-505 | the map loop writes each entry at most once with its value, stops at the first write that fails, and on success has written every entry |
| Automation.Server.EntriesUnmarshallable | excel.go:503-505 | a map entry go-ole cannot marshal stops the map loop with "@PutProperty: unknown type", after every earlier write succeeded |
| Automation.Server.PlanOfNamedWrite | excel.go:494-507 | a name/value pair after a path writes the named property of the object the path leads to |
| Automation.Server.PutWritesWhatGetReads | excel.go:466-507 | for a path of names, PutProperty writes the very property that GetProperty reads |
| Automation.Server.PutMapTargetsNamedObject | excel.go:500-505 | a trailing map is written to the object reached by one more step through the name before it |
| Automation.Server.OptionIsWrittenWhole | excel.go:500 | an excel.Option is not a map[string]interface{}: it is planned as one write of the whole value, which go-ole cannot marshal |
| Automation.JoinWithSpace | excel.go:479 | joining with ", " is joining with "," after a space is put before every item but the first |
| Automation.JoinSplit | excel.go:476-479 | splitting a join on a separator that occurs in no item gives the items back |
| Automation.SplitExamples | excel.go:476 | "Name,Count" splits into "Name" and "Count"; "Name, Count" splits into "Name" and " Count" |
| Workbooks.Requested | excel.go:114-128 | one positive int asks to rewrite every current option; one Option asks for its entries; a string key and a value ask for that option; every other argument list asks for nothing |
| Workbooks.WritePanic | excel.go:132-135 | writing an option panics through a nil application handle, on a value go-ole cannot marshal, and outside the initial write when the Option map is nil; otherwise it does not |
| Workbooks.SettledUnwritten | excel.go:130-136 | an option the loop has not reached is unwritten and keeps its previous recorded value |
| Workbooks.SettledSkip | excel.go:133 | an option equal to its recorded value is skipped and nothing else changes |
| Workbooks.SettledWrite | excel.go:133-135 | writing a new or changed option keeps the writes distinct and records exactly the written options |
| Workbooks.SettledAll | excel.go:130-137 | once every option is handled, nothing panicked and exactly the options needing a write were written |
| Workbooks.SetOptionSettles | excel.go:130-137 | after the changed options are written and recorded, no comparable option is new or changed any more, so the same request writes nothing |
| Workbooks.MapOptionPanics | excel.go:125-135 | for a property name Excel knows, SetOption(key, an Option value) always panics: go-ole cannot marshal it when the key is new or holds another type, and two Option maps cannot be compared |
| Workbooks.SameValueRewritten | excel.go:133 | an option requested with the very value recorded for it is written again exactly when that value is a NaN float |
| Workbooks.RecordsOnlyMarshallable | excel.go:133-135 | for property names Excel knows, every value SetOption records in the Option map is one go-ole could marshal |
| Workbooks.MSO.SetOption | excel.go:112-139 | only requested options are written, each once and only if the initial request asks for it or it is new or changed, also when a panic cuts the loop short; without a panic the initial request writes every option and any other writes exactly the new or changed ones; the Option map records exactly the written options, unless it is nil; the error is the last write's, wrapped; a comparison, nil-handle, marshalling or nil-map panic is recovered as "@SetOption: ..." |
| Workbooks.MSO.SettleOptions | excel.go:130-137 | the range loop keeps the invariant Settled and stops at the first panic; every write it sent, panic or not, was of a requested option that needed writing |
| Workbooks.MSO.SettleOption | excel.go:131-136 | one loop step: compare, write if new or changed, record; a panicking comparison or write is reported, and no option that did not need writing has been written |
| Workbooks.MSO.WriteOption | excel.go:132-135 | writing one option: the PutProperty is logged unless it panics, then the value is recorded outside the initial write, and a nil Option map panics after the write was sent; only options that need writing are ever written |
| Workbooks.SaveAsArgs | excel.go:296-310 | the rewritten arguments keep their number and everything after the second; it fails exactly when a known format name comes with a non-string file name, with that assertion's panic |
| Workbooks.SaveAsKnownFormat | excel.go:299-305 | a known format name, in any case, becomes its code, and the file name becomes fn + "." + the lower-case name unless fn already ends with it |
| Workbooks.SaveAsOtherFormat | excel.go:306-309 | an unknown format name becomes nil; a second argument that is not a string is passed on unchanged |
| Workbooks.SaveAsIdempotent | excel.go:302-305 | saving again under the same format name with the rewritten file name rewrites nothing more |
| Workbooks.SaveAsCaseInsensitive | excel.go:299 | the format name and its lower-case form give the same outcome |
| Workbooks.FormatTable | excel.go:65 | "csv" is 6, "txt" is -4158, "html" is 44; "report" with "CSV" is saved as "report.csv" with code 6 |
| Workbooks.MSO.WorkBookSaveAs | excel.go:294-313 | the caller's arguments are rewritten in place as SaveAsArgs says, the SaveAs call is logged, and its error or panic is reported through Except |
| Workbooks.SuffixedNamesDistinct | excel.go:256-258 | different workbooks get different numbered names |
| Workbooks.SuffixedNameKeepsExt | excel.go:256-258 | every numbered name keeps the extension of the given name |
| Workbooks.NameAsWrittenWithoutExt | excel.go:256-258 | as written, "book" becomes "_0book" rather than "book_0" |
| Workbooks.NameAsWrittenEarlierExt | excel.go:256-258 | as written, "a.xls\b.xls" becomes "a_1.xls\b.xls" rather than "a.xls\b_1.xls" |
| Workbooks.NameAsWrittenAgrees | excel.go:256-258 | where the extension occurs only at the end of the name, the name as written is the intended one |
| Workbooks.SharedArgsLoseFormat | excel.go:257-260 | as written, every workbook after the first finds the format code already in the shared arguments, so its name gets no format extension |
| Workbooks.NumberedArgsKeepFormat | excel.go:257-260 | when each workbook starts from the caller's arguments, every file name gains the format's extension |
| Workbooks.MSO.WorkBooksSaveAsShared | excel.go:248-263 | as written: fewer than two workbooks are saved with the arguments as given; with more, workbook i is saved under the strings.Replace name with the shared, already rewritten slice; an empty or non-string first argument panics out |
| Workbooks.MSO.SaveShared | excel.go:256-261 | the loop's errors, calls and final arguments are those of the shared-slice specification |
| Workbooks.MSO.WorkBooksSaveAs | excel.go:248-263 | as intended: fewer than two workbooks as above; with more, workbook i is saved under its numbered name with its own copy of the caller's arguments, one error per workbook in order |
| Workbooks.MSO.SaveNumbered | excel.go:256-261 | the loop's errors, calls and final arguments are those of the numbered specification |
| Workbooks.MSO.NumberedErrorsAt | excel.go:259 | the i-th error is that of workbook i saved with its own arguments |
| Workbooks.MSO.SharedErrorsAt | excel.go:259 | the i-th error is that of workbook i saved with the shared arguments |

## Left out

- Initialize, New, Open and Quit: COM process start and stop (CoInitialize, CreateObject, Release). These are foreign calls with no logic of their own.
- The oleutil wrappers and the helpers built only from them: Pick, the workbook and sheet accessors, Cell, Range, Activate, Select, Delete, Name, GetCell and PutCell. The COM server is abstracted as the property map and write log of Automation.Server.
- The texts of COM errors. A missing property answers the constant "Unknown name.", and other errors come from the server's response oracle.
- Float and date rendering: strconv.FormatFloat and time.Unix(...).Format for tags 4, 5 and 7. Their text comes from the RealFormatter parameter.
- UTF-16 decoding for tag 8 and for *uint16 values. The Variant carries the decoded text.
- Variants.Value: no property is stated for tag 11. Go's reading of a payload byte other than 0 or 1 as a bool is not well defined; the model reads any non-zero byte as true.
- The reflected calls in DoFuncs and RftCall. The model records the calls that would be made, not what they do. A panic inside a call is ignored, as RftCall does.
- The order in which deferred Release calls run. Once COM is abstracted they have no observable effect.
- Automation.Server.GetProperty: a non-nil but empty argument slice, which panics on args[-1] in the source, is treated like no arguments.
- Workbooks.MSO.SetOption: on a panic, states which panics the error can carry and that every write already sent was needed, but not which panic comes first or which needed options were written before it; both depend on Go's map order.
- Automation.Server.PutProperty: for a trailing map, states which entries are written but not their order, which is Go's map order.
- Workbooks.MSO.SetOption: does not model an Option argument that is the very map the MSO holds, where ranging over it and updating it would alias.
- Variants.GoEqual: an excel.VARIANT or a *uint16 is compared by its contents, where Go compares the VARIANT's fields and the pointer's address; the model has no addresses. Only maps and funcs are taken as uncomparable.
- Automation.Server.PutProp: go-ole's marshalling is not part of this model. Only maps and funcs are taken as values it refuses ("unknown type"), and the refusal is checked before the server answers, although go-ole looks the property name up first, so an unknown name with such a value fails with the server's error instead.
- Automation.Server.CallMethod: the same marshalling simplification as PutProp.
- Workbooks.MapOptionPanics: holds only for a property name Excel knows. go-ole looks the name up before it marshals the value, so SetOption with an unknown name and an Option value gets the server's "Unknown name." error without a panic, records the Option map, and panics only on the next call, when two maps are compared; the model checks marshalling first and does not capture this case.
- Workbooks.RecordsOnlyMarshallable: holds only for property names Excel knows; for an unknown name excel.go:135 still records the map or func after the failed write, which the model, checking marshalling first, does not capture.
- GoStrings.ToLower: strings.ToLower is modelled on ASCII letters only; the format names it is applied to are ASCII.

## Findings

| source | as written | input that shows it | evidently intended | confidence | as-written member | corrected member |
|---|---|---|---|---|---|---|
| excel.go:256-258 | the numbered name is strings.Replace(full, ext, "_"+i+ext, 1), which replaces the first occurrence of the extension, and matches at the very start when there is no extension | "book" gives "_0book"; "a.xls\b.xls" gives "a_1.xls\b.xls" | "_i" between the stem and the final extension: "book_0", "a.xls\b_1.xls" | not executed | Workbooks.SuffixedNameAsWritten (NameAsWrittenWithoutExt, NameAsWrittenEarlierExt) | Workbooks.SuffixedName (SuffixedNamesDistinct, SuffixedNameKeepsExt) |
| excel.go:257-260 | every workbook is saved with the same argument slice, which WorkBook.SaveAs (excel.go:303-307) rewrites in place | two workbooks, args "out.xls", "csv": the first is saved as "out_0.xls.csv", the second as "out_1.xls", both with code 6 | each workbook saved as if alone, every name gaining ".csv" | not executed | Workbooks.MSO.WorkBooksSaveAsShared (SharedArgsLoseFormat) | Workbooks.MSO.WorkBooksSaveAs (NumberedArgsKeepFormat) |
