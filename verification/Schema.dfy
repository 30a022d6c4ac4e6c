/** Argument checking against a tool's schema: ValidateArgs, checkType and validateCall of
    pkg/agent/agent.go. */
module Schema {
  import opened Llm
  import opened Text

  /** True iff v may stand for a parameter of this kind. Unrecognised kinds accept anything. */
  predicate HasType(p: Param, v: Json) {
    match p.kind
    case TString => v.JString?
    case TEnum => v.JString? && v.s in p.options
    case TBoolean => v.JBool?
    case TInteger => v.JNumber? && v.n == v.n.Floor as real
    case TNumber => v.JNumber?
    case TArray => v.JArray?
    case TObject => v.JObject?
    case TOther(name) => name != "" || v.JString?
  }

  /** A parameter is satisfied when it is present with the right type, or absent and optional. */
  predicate Satisfied(p: Param, args: map<string, Json>) {
    if p.name in args then HasType(p, args[p.name]) else !p.required
  }

  function Quoted(s: string): string { "\"" + s + "\"" }

  function CheckType(p: Param, v: Json): (error: Option<string>)
    ensures error.None? <==> HasType(p, v)
  {
    match p.kind
    case TString => if v.JString? then None else Some("expected a string")
    case TEnum =>
      if !v.JString? then Some("expected one of " + Join(p.options, ", "))
      else if v.s in p.options then None
      else Some("must be one of " + Join(p.options, ", "))
    case TBoolean => if v.JBool? then None else Some("expected a boolean")
    case TInteger => if v.JNumber? && v.n == v.n.Floor as real then None else Some("expected an integer")
    case TNumber => if v.JNumber? then None else Some("expected a number")
    case TArray => if v.JArray? then None else Some("expected an array")
    case TObject => if v.JObject? then None else Some("expected an object")
    case TOther(name) => if name != "" || v.JString? then None else Some("expected a string")
  }

  function ParamError(p: Param, args: map<string, Json>): (error: Option<string>)
    ensures error.None? <==> Satisfied(p, args)
  {
    if p.name !in args then
      if p.required then Some("missing required argument " + Quoted(p.name)) else None
    else
      match CheckType(p, args[p.name])
      case None => None
      case Some(e) => Some("argument " + Quoted(p.name) + ": " + e)
  }

  /** Accepts exactly the arguments that satisfy every parameter; otherwise reports the first
      parameter, in declaration order, that is not satisfied. */
  function ValidateArgs(params: seq<Param>, args: map<string, Json>): (error: Option<string>)
    ensures error.None? <==> forall p <- params :: Satisfied(p, args)
    ensures error.Some? ==> exists i :: 0 <= i < |params| && error == ParamError(params[i], args)
                                     && forall j :: 0 <= j < i ==> Satisfied(params[j], args)
  {
    if params == [] then None
    else if ParamError(params[0], args).Some? then
      assert !Satisfied(params[0], args);
      ParamError(params[0], args)
    else
      var rest := ValidateArgs(params[1..], args);
      assert params == [params[0]] + params[1..];
      rest
  }

  /** A call is well formed when the first tool of that name accepts its arguments. A name that no
      tool carries is not checked here. */
  ghost predicate WellFormed(tools: seq<Tool>, call: ToolCall) {
    forall i :: 0 <= i < |tools| && tools[i].name == call.tool
                && (forall j :: 0 <= j < i ==> tools[j].name != call.tool)
      ==> forall p <- tools[i].params :: Satisfied(p, call.args)
  }

  function ValidateCall(tools: seq<Tool>, call: ToolCall): (error: Option<string>)
    ensures error.None? <==> WellFormed(tools, call)
  {
    if tools == [] then None
    else if tools[0].name == call.tool then ValidateArgs(tools[0].params, call.args)
    else
      var rest := ValidateCall(tools[1..], call);
      assert WellFormed(tools, call) <==> WellFormed(tools[1..], call) by { WellFormedTail(tools, call); }
      rest
  }

  lemma WellFormedTail(tools: seq<Tool>, call: ToolCall)
    requires tools != [] && tools[0].name != call.tool
    ensures WellFormed(tools, call) <==> WellFormed(tools[1..], call)
  {
    var rest := tools[1..];
    if WellFormed(rest, call) {
      forall i | 0 <= i < |tools| && tools[i].name == call.tool
                 && (forall j :: 0 <= j < i ==> tools[j].name != call.tool)
        ensures forall p <- tools[i].params :: Satisfied(p, call.args)
      {
        assert rest[i - 1] == tools[i];
      }
    }
    if WellFormed(tools, call) {
      forall i | 0 <= i < |rest| && rest[i].name == call.tool
                 && (forall j :: 0 <= j < i ==> rest[j].name != call.tool)
        ensures forall p <- rest[i].params :: Satisfied(p, call.args)
      {
        assert tools[i + 1] == rest[i];
        forall j | 0 <= j < i + 1 ensures tools[j].name != call.tool {
          if j > 0 { assert rest[j - 1] == tools[j]; }
        }
      }
    }
  }

  /** The same types, told by the value: what each kind of JSON value may stand for. */
  lemma TypesByValue(p: Param, v: Json)
    ensures HasType(p, v) <==>
      match v
      case JString(s) =>
        p.kind.TString? || (p.kind.TEnum? && exists i :: 0 <= i < |p.options| && p.options[i] == s) || p.kind.TOther?
      case JBool(_) => p.kind.TBoolean? || (p.kind.TOther? && p.kind.name != "")
      case JNumber(n) =>
        p.kind.TNumber? || (p.kind.TInteger? && n - n.Floor as real == 0.0) || (p.kind.TOther? && p.kind.name != "")
      case JArray(_) => p.kind.TArray? || (p.kind.TOther? && p.kind.name != "")
      case JObject(_) => p.kind.TObject? || (p.kind.TOther? && p.kind.name != "")
      case JNull => p.kind.TOther? && p.kind.name != ""
  {
  }
}
