/**
 * The HTTP endpoints of the service (primitive/backend/app/main.py) that
 * carry logic: the upload checks, the renaming that avoids overwriting an
 * earlier upload, the form parameters handed to `create_job`, the sorted
 * output listing and the not-found rules of the read endpoints.
 *
 * The upload directory is the set of names in it; a job's output directory
 * is looked up in a `FileSystem`, a map from directory path to its entries
 * (a path that is not a key is a directory that does not exist).
 */
module Api {
  import opened Wrappers
  import opened Text
  import opened Models
  import Jobs

  /** An `HTTPException`: a status code and its `detail`. */
  datatype HttpError = HttpError(status: int, detail: string)

  const UnsupportedType := HttpError(400, "仅支持 PNG / JPG / JPEG")
  const JobNotFound := HttpError(404, "未找到任务")
  const FileNotFound := HttpError(404, "文件不存在")

  function TooLarge(maxUploadMb: int): HttpError {
    HttpError(413, "文件过大，最大 " + IntToString(maxUploadMb) + " MB")
  }

  // ---------------------------------------------------------- file names

  /** `name.rfind('.')`. */
  function LastDot(name: string): (r: int)
    ensures -1 <= r < |name|
    ensures r >= 0 ==> name[r] == '.'
    ensures forall j | r < j < |name| :: name[j] != '.'
  {
    if name == [] then -1
    else if name[|name| - 1] == '.' then |name| - 1
    else LastDot(name[..|name| - 1])
  }

  /** The position of the last dot is the only one with a dot there and none after it. */
  lemma {:induction false} LastDotUnique(name: string, r: int)
    requires -1 <= r < |name| && (r >= 0 ==> name[r] == '.')
    requires forall j | r < j < |name| :: name[j] != '.'
    ensures LastDot(name) == r
  {
    if name != [] && name[|name| - 1] != '.' {
      LastDotUnique(name[..|name| - 1], r);
    }
  }

  /** A dot that is neither the first nor the last character starts a suffix. */
  predicate HasSuffix(name: string) {
    0 < LastDot(name) < |name| - 1
  }

  /** `PurePath(name).suffix`. */
  function Suffix(name: string): string {
    if HasSuffix(name) then name[LastDot(name)..] else ""
  }

  /** `PurePath(name).stem`. */
  function Stem(name: string): string {
    if HasSuffix(name) then name[..LastDot(name)] else name
  }

  /** A name is its stem followed by its suffix; a suffix is a dot and at least one other character, none a dot. */
  lemma StemAndSuffix(name: string)
    ensures Stem(name) + Suffix(name) == name
    ensures var s := Suffix(name);
      s == "" || (|s| >= 2 && s[0] == '.' && forall j | 0 < j < |s| :: s[j] != '.')
  {
  }

  // ------------------------------------------------------------- upload

  /** `file.filename or "upload"`. */
  function UploadName(filename: Option<string>): string {
    if filename.Some? && filename.value != "" then filename.value else "upload"
  }

  const AcceptedSuffixes: set<string> := {".png", ".jpg", ".jpeg"}

  /** The suffix test: `Path(name).suffix.lower()` must be one of the image suffixes. */
  predicate AcceptedName(name: string) {
    Lower(Suffix(name)) in AcceptedSuffixes
  }

  /** `max_upload_mb * 1024 * 1024`. */
  function MaxBytes(maxUploadMb: int): int {
    maxUploadMb * 1024 * 1024
  }

  /** The checks of `create_job_endpoint`, in the order the code makes them; the name to store on success. */
  function CheckUpload(filename: Option<string>, size: nat, maxUploadMb: int): Result<string, HttpError> {
    var name := UploadName(filename);
    if !AcceptedName(name) then Failure(UnsupportedType)
    else if size > MaxBytes(maxUploadMb) then Failure(TooLarge(maxUploadMb))
    else Success(name)
  }

  /** The stand-in name `upload` has no suffix, so an upload without a file name is always refused. */
  lemma UploadFallbackRejected(filename: Option<string>, size: nat, maxUploadMb: int)
    requires filename.None? || filename.value == ""
    ensures CheckUpload(filename, size, maxUploadMb) == Failure(UnsupportedType)
  {
    LastDotUnique("upload", -1);
  }

  /**
   * An upload is accepted exactly when its own name has an image suffix (in
   * any letter case) and it is no longer than the limit; the name then is
   * the file name sent. A bad suffix is reported before the size: 400 even
   * for oversize content; an oversize image gets 413.
   */
  lemma CheckUploadRules(filename: Option<string>, size: nat, maxUploadMb: int)
    ensures var r := CheckUpload(filename, size, maxUploadMb);
      && (r.Success? <==> filename.Some? && AcceptedName(filename.value) && size <= MaxBytes(maxUploadMb))
      && (r.Success? ==> filename == Some(r.value))
      && (!AcceptedName(UploadName(filename)) ==> r == Failure(UnsupportedType))
      && (AcceptedName(UploadName(filename)) && size > MaxBytes(maxUploadMb) ==> r == Failure(TooLarge(maxUploadMb)))
  {
    if filename.None? || filename.value == "" {
      UploadFallbackRejected(filename, size, maxUploadMb);
    }
  }

  /** Content of exactly the limit is accepted; one byte more is refused with 413. */
  lemma SizeLimitIsInclusive(name: string, maxUploadMb: int)
    requires name != "" && AcceptedName(name) && maxUploadMb >= 0
    ensures CheckUpload(Some(name), MaxBytes(maxUploadMb), maxUploadMb) == Success(name)
    ensures CheckUpload(Some(name), MaxBytes(maxUploadMb) + 1, maxUploadMb) == Failure(TooLarge(maxUploadMb))
  {
  }

  // ----------------------------------------------------------- renaming

  /** `f"{dest.stem}-{i}{dest.suffix}"`. */
  function Renamed(name: string, i: nat): string {
    Stem(name) + "-" + IntToString(i) + Suffix(name)
  }

  /** The name the loop holds after `k` renamings. */
  function Chain(name: string, k: nat): string {
    if k == 0 then name else Renamed(Chain(name, k - 1), k)
  }

  /** `dest` is the first name of the chain that is not taken. */
  ghost predicate FirstFree(existing: set<string>, name: string, dest: string) {
    exists k: nat :: dest == Chain(name, k) && dest !in existing && forall j: nat | j < k :: Chain(name, j) in existing
  }

  /** There is only one first free name. */
  lemma FirstFreeUnique(existing: set<string>, name: string, d1: string, d2: string)
    requires FirstFree(existing, name, d1) && FirstFree(existing, name, d2)
    ensures d1 == d2
  {
    var k1: nat :| d1 == Chain(name, k1) && d1 !in existing && forall j: nat | j < k1 :: Chain(name, j) in existing;
    var k2: nat :| d2 == Chain(name, k2) && d2 !in existing && forall j: nat | j < k2 :: Chain(name, j) in existing;
    if k1 < k2 {
      assert false;
    } else if k2 < k1 {
      assert false;
    }
  }

  /** Renaming always lengthens the name. */
  lemma RenamedLonger(name: string, i: nat)
    ensures |Renamed(name, i)| > |name|
  {
    StemAndSuffix(name);
  }

  /** The taken names of at least `len` characters. */
  function TakenFrom(existing: set<string>, len: nat): set<string> {
    set x | x in existing && |x| >= len
  }

  /** Fewer taken names are at least as long as `b` than as a shorter taken `a`. */
  lemma LongerTakenNamesShrink(existing: set<string>, a: string, b: string)
    requires a in existing && |b| > |a|
    ensures |TakenFrom(existing, |b|)| < |TakenFrom(existing, |a|)|
  {
    var sa, sb := TakenFrom(existing, |a|), TakenFrom(existing, |b|);
    SubsetNoLarger(sb, sa - {a});
  }

  lemma {:induction false} SubsetNoLarger(small: set<string>, large: set<string>)
    requires small <= large
    ensures |small| <= |large|
    decreases |small|
  {
    if small != {} {
      var x :| x in small;
      SubsetNoLarger(small - {x}, large - {x});
    }
  }

  /** The first `k` names of the chain are all taken. */
  ghost predicate TakenRun(existing: set<string>, name: string, k: nat) {
    forall j: nat | j < k :: Chain(name, j) in existing
  }

  /** The "avoid overwrite" loop: rename with `-1`, `-2`, ... until the name is free. */
  method AvoidOverwrite(existing: set<string>, name: string) returns (dest: string)
    ensures FirstFree(existing, name, dest)
  {
    dest := name;
    var i := 1;
    while dest in existing
      invariant 1 <= i && dest == Chain(name, i - 1) && TakenRun(existing, name, i - 1)
      decreases |TakenFrom(existing, |dest|)|
    {
      TakenPrefixGrows(existing, name, i);
      dest := Renamed(dest, i);
      i := i + 1;
    }
    FirstFreeAt(existing, name, i - 1);
  }

  lemma FirstFreeAt(existing: set<string>, name: string, k: nat)
    requires Chain(name, k) !in existing && TakenRun(existing, name, k)
    ensures FirstFree(existing, name, Chain(name, k))
  {
  }

  /**
   * One more taken name of the chain extends the run of taken names, and
   * leaves fewer taken names at least as long as the next one.
   */
  lemma TakenPrefixGrows(existing: set<string>, name: string, i: nat)
    requires 1 <= i && Chain(name, i - 1) in existing && TakenRun(existing, name, i - 1)
    ensures TakenRun(existing, name, i)
    ensures Chain(name, i) == Renamed(Chain(name, i - 1), i)
    ensures |TakenFrom(existing, |Chain(name, i)|)| < |TakenFrom(existing, |Chain(name, i - 1)|)|
  {
    var prev := Chain(name, i - 1);
    RenamedLonger(prev, i);
    LongerTakenNamesShrink(existing, prev, Renamed(prev, i));
  }

  /** Renaming a name with a suffix keeps the suffix and extends the stem by `-i`. */
  lemma RenamedKeepsSuffix(name: string, i: nat)
    requires Suffix(name) != ""
    ensures Suffix(Renamed(name, i)) == Suffix(name)
    ensures Stem(Renamed(name, i)) == Stem(name) + "-" + IntToString(i)
  {
    StemAndSuffix(name);
    var head, suffix := Stem(name) + "-" + IntToString(i), Suffix(name);
    var r := head + suffix;
    assert Renamed(name, i) == r;
    forall j | |head| < j < |r| ensures r[j] != '.' {
      assert r[j] == suffix[j - |head|];
    }
    LastDotUnique(r, |head|);
    assert r[..|head|] == head && r[|head|..] == suffix;
  }

  /** Every name of the chain has the original suffix. */
  lemma {:induction false} ChainKeepsSuffix(name: string, k: nat)
    requires Suffix(name) != ""
    ensures Suffix(Chain(name, k)) == Suffix(name)
  {
    if k > 0 {
      var prev := Chain(name, k - 1);
      ChainKeepsSuffix(name, k - 1);
      assert Suffix(prev) == Suffix(name);
      RenamedKeepsSuffix(prev, k);
      assert Chain(name, k) == Renamed(prev, k);
    }
  }

  /** The renamed upload keeps the suffix that was checked. */
  lemma FirstFreeKeepsSuffix(existing: set<string>, name: string, dest: string)
    requires Suffix(name) != "" && FirstFree(existing, name, dest)
    ensures Suffix(dest) == Suffix(name)
  {
    var k: nat :| dest == Chain(name, k) && dest !in existing && forall j: nat | j < k :: Chain(name, j) in existing;
    ChainKeepsSuffix(name, k);
  }

  lemma OneAndTwo()
    ensures IntToString(1) == "1" && IntToString(2) == "2"
  {
    assert NatToString(1) == [DigitChar(1)];
    assert NatToString(2) == [DigitChar(2)];
  }

  lemma ConcatTwo(stem: string, suffix: string)
    ensures (stem + "-1") + "-" + "2" + suffix == stem + "-1-2" + suffix
  {
  }

  /** The first renaming appends `-1` to the stem. */
  lemma ChainOfOne(name: string)
    ensures Chain(name, 1) == Stem(name) + "-1" + Suffix(name)
  {
    OneAndTwo();
    assert Chain(name, 0) == name;
  }

  /** Renamings chain on the renamed stem: `a.png`, `a-1.png`, `a-1-2.png`. */
  lemma ChainOfTwo(name: string)
    requires Suffix(name) != ""
    ensures Chain(name, 2) == Stem(name) + "-1-2" + Suffix(name)
  {
    var stem, suffix := Stem(name), Suffix(name);
    var once := Chain(name, 1);
    assert Chain(name, 0) == name;
    assert once == Renamed(name, 1);
    RenamedKeepsSuffix(name, 1);
    OneAndTwo();
    assert Stem(once) == stem + "-1" && Suffix(once) == suffix;
    assert Chain(name, 2) == Renamed(once, 2);
    assert Renamed(once, 2) == (stem + "-1") + "-" + "2" + suffix;
    ConcatTwo(stem, suffix);
  }

  // --------------------------------------------------------- form params

  /**
   * The form fields as sent. For an integer field `None` is a field the
   * request left out or sent empty (FastAPI reads an empty form value as a
   * missing one); `bg` keeps the text so that the empty case stays visible.
   */
  datatype Form = Form(
    n: Option<int>, m: Option<int>, s: Option<int>, r: Option<int>, a: Option<int>,
    bg: Option<string>, rep: Option<int>, nth: Option<int>, j: Option<int>, v: Option<int>)

  /** An integer field with its declared default (`None` for `nth`). */
  function IntField(sent: Option<int>, default: ParamValue): ParamValue {
    if sent.Some? then IntVal(sent.value) else default
  }

  /** The `params` dict of `create_job_endpoint`, in its literal order, with the declared defaults filled in. */
  function FormParams(form: Form): Params {
    [("n", IntField(form.n, IntVal(100))), ("m", IntField(form.m, IntVal(1))), ("s", IntField(form.s, IntVal(1024))),
     ("r", IntField(form.r, IntVal(256))), ("a", IntField(form.a, IntVal(128))),
     ("bg", if form.bg.Some? && form.bg.value != "" then StrVal(form.bg.value) else StrVal("avg")),
     ("rep", IntField(form.rep, IntVal(0))), ("nth", IntField(form.nth, NoneVal)),
     ("j", IntField(form.j, IntVal(0))), ("v", IntField(form.v, IntVal(0)))]
  }

  /** `bg` is stored as sent unless it is absent or empty, when the declared `avg` applies. */
  lemma BackgroundDefault(form: Form)
    ensures FormParams(form)[5] ==
      ("bg", if form.bg == None || form.bg == Some("") then StrVal("avg") else StrVal(form.bg.value))
  {
  }

  /** `{k: v for k, v in params.items() if v is not None}`. */
  function DropNone(params: Params): (r: Params)
    ensures |r| <= |params|
  {
    if params == [] then []
    else
      var last := params[|params| - 1];
      DropNone(params[..|params| - 1]) + (if last.1 == NoneVal then [] else [last])
  }

  /** Filtering a concatenation filters each part: the survivors keep their order. */
  lemma {:induction false} DropNoneAppend(p: Params, q: Params)
    ensures DropNone(p + q) == DropNone(p) + DropNone(q)
  {
    if q == [] {
      assert p + q == p;
    } else {
      var pq := p + q;
      assert pq[..|pq| - 1] == p + q[..|q| - 1];
      DropNoneAppend(p, q[..|q| - 1]);
    }
  }

  /** Exactly the entries whose value is not `None` survive. */
  lemma {:induction false} DropNoneMembers(params: Params)
    ensures forall e :: e in DropNone(params) <==> e in params && e.1 != NoneVal
  {
    if params != [] {
      var init := params[..|params| - 1];
      DropNoneMembers(init);
      assert params == init + [params[|params| - 1]];
    }
  }

  /** Without a `None` value nothing is dropped. */
  lemma {:induction false} DropNoneWithoutNone(params: Params)
    requires forall i | 0 <= i < |params| :: params[i].1 != NoneVal
    ensures DropNone(params) == params
  {
    if params != [] {
      var init := params[..|params| - 1];
      DropNoneWithoutNone(init);
      assert params == init + [params[|params| - 1]];
    }
  }

  /** What a request that sends no parameter fields hands to `create_job`: the zero defaults stay, `nth` goes. */
  lemma DefaultParams(form: Form)
    requires form == Form(None, None, None, None, None, None, None, None, None, None)
    ensures DropNone(FormParams(form)) ==
      [("n", IntVal(100)), ("m", IntVal(1)), ("s", IntVal(1024)), ("r", IntVal(256)), ("a", IntVal(128)),
       ("bg", StrVal("avg")), ("rep", IntVal(0)), ("j", IntVal(0)), ("v", IntVal(0))]
  {
    var p := FormParams(form);
    assert p == p[..7] + [p[7]] + p[8..];
    DropNoneAppend(p[..7] + [p[7]], p[8..]);
    DropNoneAppend(p[..7], [p[7]]);
    DropNoneWithoutNone(p[..7]);
    DropNoneWithoutNone(p[8..]);
    assert DropNone([p[7]]) == [];
  }

  /**
   * A zero kept by the endpoint is still dropped by the command builder: the
   * `rep`, `j` and `v` defaults, all 0, reach the job but add no flag.
   */
  lemma ZeroDefaultsAddNoFlags(form: Form)
    requires form == Form(None, None, None, None, None, None, None, None, None, None)
    ensures Jobs.Flags(DropNone(FormParams(form)), None) ==
      Jobs.Flags([("n", IntVal(100)), ("m", IntVal(1)), ("s", IntVal(1024)), ("r", IntVal(256)), ("a", IntVal(128)), ("bg", StrVal("avg"))], None)
  {
    DefaultParams(form);
    var params := DropNone(FormParams(form));
    var head := params[..6];
    assert head == [("n", IntVal(100)), ("m", IntVal(1)), ("s", IntVal(1024)), ("r", IntVal(256)), ("a", IntVal(128)), ("bg", StrVal("avg"))];
    Jobs.DroppedParamAddsNothing(head + [("rep", IntVal(0))] + [("j", IntVal(0))], "v", IntVal(0), [], None);
    Jobs.DroppedParamAddsNothing(head + [("rep", IntVal(0))], "j", IntVal(0), [], None);
    Jobs.DroppedParamAddsNothing(head, "rep", IntVal(0), [], None);
    assert params == head + [("rep", IntVal(0))] + [("j", IntVal(0))] + [("v", IntVal(0))] + [];
    assert head + [("rep", IntVal(0))] + [("j", IntVal(0))] + [] == head + [("rep", IntVal(0))] + [("j", IntVal(0))];
    assert head + [("rep", IntVal(0))] + [] == head + [("rep", IntVal(0))];
    assert head + [] == head;
  }

  // ------------------------------------------------------ the endpoint

  /** What the browser uploads: the file name it sent, if any, and the content length. */
  datatype UploadFile = UploadFile(filename: Option<string>, size: nat)

  /** The JSON body of a successful `POST /api/jobs`. */
  datatype Created = Created(id: string, status: JobStatus, progress: int)

  /** The upload directory, as the names it holds. */
  class UploadsDir {
    var names: set<string>

    constructor (names: set<string>)
      ensures this.names == names
    {
      this.names := names;
    }
  }

  /**
   * `create_job_endpoint`. `jobId` stands for the fresh id `create_job`
   * draws. A refused upload writes nothing and creates no job; an accepted
   * one is stored under the first free name and becomes a pending job whose
   * params are the form fields without the `None` ones. Starting `run_job`
   * in the background is left to the caller.
   */
  method CreateJobEndpoint(store: Jobs.JobStore, uploads: UploadsDir, file: UploadFile, form: Form,
                           maxUploadMb: int, uploadsDir: string, jobsDir: string, jobId: string)
    returns (r: Result<Created, HttpError>, stored: Option<string>)
    requires jobId !in store.jobs
    modifies store, uploads
    ensures var check := CheckUpload(file.filename, file.size, maxUploadMb);
      check.Failure? ==> r == Failure(check.error) && stored == None
    ensures CheckUpload(file.filename, file.size, maxUploadMb).Failure? ==>
      store.jobs == old(store.jobs) && uploads.names == old(uploads.names)
    ensures var check := CheckUpload(file.filename, file.size, maxUploadMb);
      check.Success? ==>
        && r == Success(Created(jobId, Pending, 0))
        && stored.Some? && FirstFree(old(uploads.names), check.value, stored.value)
        && uploads.names == old(uploads.names) + {stored.value}
        && store.jobs == old(store.jobs)[jobId := Job(jobId, JoinPath(uploadsDir, stored.value),
             JoinPath(jobsDir, jobId), DropNone(FormParams(form)), Pending, None, 0)]
  {
    CheckUploadRules(file.filename, file.size, maxUploadMb);
    var suffix := Lower(Suffix(UploadName(file.filename)));
    if suffix !in AcceptedSuffixes {
      return Failure(UnsupportedType), None;
    }
    var dest := AvoidOverwrite(uploads.names, file.filename.value);
    var maxBytes := maxUploadMb * 1024 * 1024;
    if file.size > maxBytes {
      return Failure(TooLarge(maxUploadMb)), None;
    }
    uploads.names := uploads.names + {dest};
    var params := DropNone(FormParams(form));
    var job := store.CreateJob(jobId, jobsDir, JoinPath(uploadsDir, dest), params);
    r, stored := Success(Created(job.id, job.status, job.progress)), Some(dest);
  }

  // ------------------------------------------------------------ reading

  /** One entry of a directory: its name and whether it is a regular file. */
  datatype Entry = Entry(name: string, isFile: bool)

  /** Directory path to its entries; a path that is not a key does not exist. */
  type FileSystem = map<string, seq<Entry>>

  /** `[p.name for p in out_dir.iterdir() if p.is_file()]`. */
  function FileNames(entries: seq<Entry>): (r: seq<string>)
    ensures forall x :: x in r <==> exists e :: e in entries && e.isFile && e.name == x
  {
    if entries == [] then []
    else
      var rest := FileNames(entries[1..]);
      assert forall e :: e in entries <==> e == entries[0] || e in entries[1..];
      if entries[0].isFile then [entries[0].name] + rest else rest
  }

  /** Python's `<=` on strings: character by character, a prefix before its extensions. */
  predicate NameLe(a: string, b: string) {
    a == [] || (b != [] && (a[0] < b[0] || (a[0] == b[0] && NameLe(a[1..], b[1..]))))
  }

  lemma {:induction false} NameLeReflexive(a: string)
    ensures NameLe(a, a)
  {
    if a != [] {
      NameLeReflexive(a[1..]);
    }
  }

  lemma {:induction false} NameLeTotal(a: string, b: string)
    ensures NameLe(a, b) || NameLe(b, a)
  {
    if a != [] && b != [] && a[0] == b[0] {
      NameLeTotal(a[1..], b[1..]);
    }
  }

  lemma {:induction false} NameLeTransitive(a: string, b: string, c: string)
    requires NameLe(a, b) && NameLe(b, c)
    ensures NameLe(a, c)
  {
    if a != [] && a[0] == b[0] && b[0] == c[0] {
      NameLeTransitive(a[1..], b[1..], c[1..]);
    }
  }

  lemma {:induction false} NameLeAntisymmetric(a: string, b: string)
    requires NameLe(a, b) && NameLe(b, a)
    ensures a == b
  {
    if a != [] {
      NameLeAntisymmetric(a[1..], b[1..]);
      assert a == [a[0]] + a[1..] && b == [b[0]] + b[1..];
    }
  }

  predicate SortedNames(s: seq<string>) {
    forall i, j | 0 <= i < j < |s| :: NameLe(s[i], s[j])
  }

  /** Insert `x` before the first name it does not follow. */
  function Insert(x: string, s: seq<string>): (r: seq<string>)
    requires SortedNames(s)
    ensures SortedNames(r) && multiset(r) == multiset(s) + multiset{x}
  {
    if s == [] then [x]
    else if NameLe(x, s[0]) then
      InsertFront(x, s);
      [x] + s
    else
      SortedTail(s);
      var rest := Insert(x, s[1..]);
      InsertBehind(x, s, rest);
      [s[0]] + rest
  }

  /** A name at most the first of a sorted sequence can go in front. */
  lemma InsertFront(x: string, s: seq<string>)
    requires SortedNames(s) && s != [] && NameLe(x, s[0])
    ensures SortedNames([x] + s) && multiset([x] + s) == multiset(s) + multiset{x}
  {
    var r := [x] + s;
    forall i, j | 0 <= i < j < |r| ensures NameLe(r[i], r[j]) {
      if i == 0 {
        assert r[j] == s[j - 1];
        if j > 1 {
          NameLeTransitive(x, s[0], s[j - 1]);
        }
      } else {
        assert r[i] == s[i - 1] && r[j] == s[j - 1];
      }
    }
  }

  /** A name after the first of a sorted sequence goes into its tail. */
  lemma InsertBehind(x: string, s: seq<string>, rest: seq<string>)
    requires SortedNames(s) && s != [] && !NameLe(x, s[0])
    requires SortedNames(rest) && multiset(rest) == multiset(s[1..]) + multiset{x}
    ensures SortedNames([s[0]] + rest) && multiset([s[0]] + rest) == multiset(s) + multiset{x}
  {
    assert s == [s[0]] + s[1..];
    NameLeTotal(x, s[0]);
    forall j | 0 <= j < |rest| ensures NameLe(s[0], rest[j]) {
      var y := rest[j];
      assert y in multiset(rest);
      if y != x {
        assert y in multiset(s[1..]);
        var k :| 0 <= k < |s[1..]| && s[1..][k] == y;
        assert s[k + 1] == y;
      }
    }
    var r := [s[0]] + rest;
    forall i, j | 0 <= i < j < |r| ensures NameLe(r[i], r[j]) {
      assert r[j] == rest[j - 1];
      if i > 0 {
        assert r[i] == rest[i - 1];
      }
    }
  }

  /** `sorted(names)`. */
  function SortNames(s: seq<string>): (r: seq<string>)
    ensures SortedNames(r) && multiset(r) == multiset(s)
  {
    if s == [] then []
    else
      assert s == [s[0]] + s[1..];
      Insert(s[0], SortNames(s[1..]))
  }

  /** The first name of a sorted sequence is at most every name in it. */
  lemma SortedFirstIsLeast(a: seq<string>, x: string)
    requires SortedNames(a) && x in multiset(a)
    ensures NameLe(a[0], x)
  {
    var i :| 0 <= i < |a| && a[i] == x;
    if i == 0 {
      NameLeReflexive(x);
    }
  }

  lemma SortedTail(a: seq<string>)
    requires SortedNames(a) && a != []
    ensures SortedNames(a[1..])
  {
    forall i, j | 0 <= i < j < |a[1..]| ensures NameLe(a[1..][i], a[1..][j]) {
      assert a[1..][i] == a[i + 1] && a[1..][j] == a[j + 1];
    }
  }

  /** Two sorted arrangements of the same names start with the same name. */
  lemma SortedSameHead(a: seq<string>, b: seq<string>)
    requires SortedNames(a) && SortedNames(b) && multiset(a) == multiset(b) && a != [] && b != []
    ensures a[0] == b[0]
  {
    assert a[0] in multiset(b);
    assert b[0] in multiset(a);
    SortedFirstIsLeast(a, b[0]);
    SortedFirstIsLeast(b, a[0]);
    NameLeAntisymmetric(a[0], b[0]);
  }

  /** Dropping the first name takes one copy of it out of the multiset. */
  lemma TailMultiset(a: seq<string>)
    requires a != []
    ensures multiset(a[1..]) == multiset(a) - multiset{a[0]}
  {
    assert a == [a[0]] + a[1..];
  }

  /** Two sorted arrangements of the same names are the same sequence: sorting has one answer. */
  lemma {:induction false} SortedUnique(a: seq<string>, b: seq<string>)
    requires SortedNames(a) && SortedNames(b) && multiset(a) == multiset(b)
    ensures a == b
    decreases |a|
  {
    if a == [] {
      assert |b| == |multiset(b)| == |multiset(a)| == 0;
    } else {
      assert |b| == |multiset(b)| == |multiset(a)| == |a|;
      SortedSameHead(a, b);
      TailMultiset(a);
      TailMultiset(b);
      SortedTail(a);
      SortedTail(b);
      SortedUnique(a[1..], b[1..]);
      assert a == [a[0]] + a[1..] && b == [b[0]] + b[1..];
    }
  }

  /** `list_outputs`. */
  function ListOutputs(jobs: map<string, Job>, fs: FileSystem, jobId: string): Result<seq<string>, HttpError> {
    if jobId !in jobs then Failure(JobNotFound)
    else
      var dir := jobs[jobId].outputDir;
      if dir !in fs then Success([]) else Success(SortNames(FileNames(fs[dir])))
  }

  /**
   * An unknown job is a 404; a missing output directory lists nothing;
   * otherwise the listing is the regular files of the directory, each
   * name once per entry, in ascending order.
   */
  lemma ListOutputsRules(jobs: map<string, Job>, fs: FileSystem, jobId: string)
    ensures var r := ListOutputs(jobs, fs, jobId);
      && (r.Failure? <==> jobId !in jobs)
      && (r.Failure? ==> r.error == JobNotFound)
      && (r.Success? && jobs[jobId].outputDir !in fs ==> r.value == [])
      && (r.Success? && jobs[jobId].outputDir in fs ==>
            SortedNames(r.value) && multiset(r.value) == multiset(FileNames(fs[jobs[jobId].outputDir])))
  {
  }

  /** A name is listed exactly when the output directory has a regular file of that name. */
  lemma ListedIffRegularFile(jobs: map<string, Job>, fs: FileSystem, jobId: string, name: string)
    requires jobId in jobs
    ensures var r := ListOutputs(jobs, fs, jobId); var dir := jobs[jobId].outputDir;
      name in r.value <==> dir in fs && exists e :: e in fs[dir] && e.isFile && e.name == name
  {
    var dir := jobs[jobId].outputDir;
    if dir in fs {
      var names := FileNames(fs[dir]);
      assert name in ListOutputs(jobs, fs, jobId).value <==> name in multiset(SortNames(names));
      assert name in multiset(names) <==> name in names;
    }
  }

  /** `download_output`: the path served, or the 404 that applies. */
  function DownloadOutput(jobs: map<string, Job>, fs: FileSystem, jobId: string, filename: string): Result<string, HttpError> {
    if jobId !in jobs then Failure(JobNotFound)
    else
      var dir := jobs[jobId].outputDir;
      if dir in fs && exists e | e in fs[dir] :: e.isFile && e.name == filename then Success(JoinPath(dir, filename))
      else Failure(FileNotFound)
  }

  /** What can be downloaded is exactly what the listing shows; anything else is one of the two 404s. */
  lemma DownloadMatchesListing(jobs: map<string, Job>, fs: FileSystem, jobId: string, filename: string)
    ensures var d := DownloadOutput(jobs, fs, jobId, filename);
      && (d.Success? <==> ListOutputs(jobs, fs, jobId).Success? && filename in ListOutputs(jobs, fs, jobId).value)
      && (jobId !in jobs ==> d == Failure(JobNotFound))
      && (jobId in jobs && d.Failure? ==> d == Failure(FileNotFound))
      && (d.Success? ==> d.value == JoinPath(jobs[jobId].outputDir, filename))
  {
    if jobId in jobs {
      ListedIffRegularFile(jobs, fs, jobId, filename);
    }
  }

  /** The JSON body of `GET /api/jobs/{id}` (the creation time is left out). */
  datatype JobView = JobView(id: string, status: JobStatus, message: Option<string>, progress: int, params: Params)

  /** `get_job`. */
  function GetJob(jobs: map<string, Job>, jobId: string): (r: Result<JobView, HttpError>)
    ensures r.Failure? <==> jobId !in jobs
    ensures r.Failure? ==> r.error == JobNotFound
    ensures r.Success? ==>
      && r.value.id == jobs[jobId].id && r.value.status == jobs[jobId].status
      && r.value.message == jobs[jobId].message && r.value.progress == jobs[jobId].progress
      && r.value.params == jobs[jobId].params
  {
    if jobId !in jobs then Failure(JobNotFound)
    else
      var job := jobs[jobId];
      Success(JobView(job.id, job.status, job.message, job.progress, job.params))
  }

  /**
   * A job is found by `get_job` exactly when its outputs can be listed, and
   * both answer an unknown id with the same 404.
   */
  lemma GetJobAgreesWithListing(jobs: map<string, Job>, fs: FileSystem, jobId: string)
    ensures GetJob(jobs, jobId).Failure? <==> ListOutputs(jobs, fs, jobId).Failure?
    ensures GetJob(jobs, jobId).Failure? ==> ListOutputs(jobs, fs, jobId) == Failure(JobNotFound)
  {
    ListOutputsRules(jobs, fs, jobId);
  }

  /**
   * Right after `create_job` stores a new job, `get_job` shows it pending
   * with progress 0, no message and the params it was given; every other id
   * answers as before.
   */
  lemma GetJobAfterCreate(jobs: map<string, Job>, job: Job, other: string)
    requires job.id !in jobs && job.status == Pending && job.progress == 0 && job.message == None
    ensures GetJob(jobs, job.id) == Failure(JobNotFound)
    ensures GetJob(jobs[job.id := job], job.id) == Success(JobView(job.id, Pending, None, 0, job.params))
    ensures other != job.id ==> GetJob(jobs[job.id := job], other) == GetJob(jobs, other)
  {
  }
}
