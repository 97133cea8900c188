/**
 * The job record the service stores (primitive/backend/app/models.py), and
 * the parameter values a job carries. The record is a value; the database
 * is a map from job id to record, held by `Jobs.JobStore`.
 */
module Models {
  import opened Wrappers
  import opened Text

  datatype JobStatus = Pending | Running | Succeeded | Failed | Canceled

  /** A parameter value as Python holds it after a JSON round trip. */
  datatype ParamValue = NoneVal | IntVal(i: int) | StrVal(s: string) | BoolVal(b: bool)

  /** A params dict, in insertion (= iteration) order. */
  type Params = seq<(string, ParamValue)>

  /** Python's `==` between two parameter values; `bool` is a subclass of `int`, so `0 == False`. */
  predicate PyEq(x: ParamValue, y: ParamValue) {
    match (x, y)
    case (NoneVal, NoneVal) => true
    case (IntVal(a), IntVal(b)) => a == b
    case (StrVal(a), StrVal(b)) => a == b
    case (BoolVal(a), BoolVal(b)) => a == b
    case (IntVal(a), BoolVal(b)) => a == (if b then 1 else 0)
    case (BoolVal(a), IntVal(b)) => (if a then 1 else 0) == b
    case _ => false
  }

  /** Python truthiness. */
  predicate Truthy(v: ParamValue) {
    match v
    case NoneVal => false
    case IntVal(i) => i != 0
    case StrVal(s) => s != ""
    case BoolVal(b) => b
  }

  /** `str(v)`. */
  function PyStr(v: ParamValue): string {
    match v
    case NoneVal => "None"
    case IntVal(i) => IntToString(i)
    case StrVal(s) => s
    case BoolVal(b) => if b then "True" else "False"
  }

  /** `params.get(key)`: the value of the first entry with that key. */
  function Get(params: Params, key: string): (r: Option<ParamValue>)
    ensures r.Some? <==> exists i :: 0 <= i < |params| && params[i].0 == key
  {
    if params == [] then None
    else if params[0].0 == key then Some(params[0].1)
    else Get(params[1..], key)
  }

  /** `str(Path(dir) / name)`. */
  function JoinPath(dir: string, name: string): string {
    dir + "/" + name
  }

  datatype Job = Job(
    id: string,
    inputPath: string,
    outputDir: string,
    params: Params,
    status: JobStatus,
    message: Option<string>,
    progress: int)
}
