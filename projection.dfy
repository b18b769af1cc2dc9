/**
 * Projection of the registered descriptor files into tools: the `-services`
 * allow-list, the skipping of streaming methods, and the name, description
 * and procedure path derived for every remaining method.
 */
module Projection {
  import opened Wrappers
  import opened Strings
  import opened Descriptors
  import Linkage

  /**
   * A tool as handed to the tool host: its name, description, the procedure
   * path and full URL its handler calls, and the input message its schema
   * is generated from.
   */
  datatype Tool = Tool(name: string, description: string, procedure: string, target: string, input: string)

  /** The registry in registration order and the tools built from it. */
  datatype Startup = Startup(registry: seq<File>, tools: seq<Tool>)

  predicate Unary(m: Method)
  {
    !m.clientStreaming && !m.serverStreaming
  }

  /** An empty allow-list admits every service. */
  predicate Allowed(allow: set<string>, service: string)
  {
    |allow| == 0 || service in allow
  }

  // ---------------------------------------------------------------- allow-list

  /** The allow-list a `-services` value stands for. */
  function AllowSet(services: string): (allow: set<string>)
    ensures services == "" ==> allow == {}
    ensures forall x :: x in allow ==> ',' !in x
  {
    if services == "" then {} else set p | p in Split(services, ',')
  }

  /** Lines 142-148: an empty value is an empty list, otherwise every comma-separated piece. */
  method ParseAllowList(services: string) returns (allow: set<string>)
    ensures allow == AllowSet(services)
  {
    allow := {};
    if |services| > 0 {
      var parts := Split(services, ',');
      for i := 0 to |parts|
        invariant allow == set p | p in parts[..i]
      {
        assert parts[..i + 1] == parts[..i] + [parts[i]];
        allow := allow + {parts[i]};
      }
      assert parts[..|parts|] == parts;
    }
  }

  /** Listing service names, comma-separated, admits exactly those names. */
  lemma AllowSetOfNames(names: seq<string>)
    requires |names| >= 1 && forall n :: n in names ==> ',' !in n
    requires Join(names, ",") != ""
    ensures AllowSet(Join(names, ",")) == set n | n in names
  {
    assert "," == [','];
    SplitJoin(names, ',');
  }

  // ---------------------------------------------------------- derived strings

  /** Line 256: `<service>__<method>` with every `.` turned into `_`. */
  function ToolName(service: string, methodName: string): (n: string)
    ensures |n| == |service| + 2 + |methodName|
  {
    ReplaceAll(service + "__" + methodName, '.', '_')
  }

  /** Line 252: the Connect/gRPC procedure path. */
  function Procedure(service: string, methodName: string): (p: string)
    ensures |p| == |service| + |methodName| + 2 && p[0] == '/'
  {
    "/" + service + "/" + methodName
  }

  /** Lines 245-251: each non-empty comment, trimmed, in order. */
  function DescriptionParts(leading: string, trailing: string): seq<string>
  {
    (if leading != "" then [TrimSpace(leading)] else []) + (if trailing != "" then [TrimSpace(trailing)] else [])
  }

  /** Line 253. */
  function Description(leading: string, trailing: string): string
  {
    Join(DescriptionParts(leading, trailing), " | ")
  }

  function ToolFor(s: Service, m: Method, baseURL: string): Tool
  {
    var procedure := Procedure(s.fullName, m.name);
    Tool(ToolName(s.fullName, m.name), Description(m.leadingComments, m.trailingComments),
         procedure, baseURL + procedure, m.input)
  }

  /** A tool name is the dot-replaced service name, `__`, and the dot-replaced method name, and holds no `.`. */
  lemma ToolNameShape(service: string, methodName: string)
    ensures ToolName(service, methodName) == ReplaceAll(service, '.', '_') + "__" + ReplaceAll(methodName, '.', '_')
    ensures '.' !in ToolName(service, methodName)
  {
    ReplaceAllConcat(service + "__", methodName, '.', '_');
    ReplaceAllConcat(service, "__", '.', '_');
    assert ReplaceAll("__", '.', '_') == "__";
    var n := ToolName(service, methodName);
    forall i | 0 <= i < |n| ensures n[i] != '.' {
    }
  }

  /**
   * A package-qualified service: `pkg.Greeter` with method `SayHello` is named
   * `pkg_Greeter__SayHello`.
   */
  lemma QualifiedToolName(pkg: string, service: string, methodName: string)
    requires '.' !in pkg && '.' !in service && '.' !in methodName
    ensures ToolName(pkg + "." + service, methodName) == pkg + "_" + service + "__" + methodName
  {
    ToolNameShape(pkg + "." + service, methodName);
    ReplaceAllConcat(pkg + ".", service, '.', '_');
    ReplaceAllConcat(pkg, ".", '.', '_');
    ReplaceAllUntouched(pkg, '.', '_');
    ReplaceAllUntouched(service, '.', '_');
    ReplaceAllUntouched(methodName, '.', '_');
    assert ReplaceAll(".", '.', '_') == "_";
  }

  /** Tool names are not unique: services `a.b` and `a_b` give the same name to a method `M`. */
  lemma ToolNameCollision()
    ensures ToolName("a.b", "M") == ToolName("a_b", "M")
  {
    ToolNameShape("a.b", "M");
    ToolNameShape("a_b", "M");
    assert ReplaceAll("a.b", '.', '_') == "a_b" == ReplaceAll("a_b", '.', '_');
  }

  /** In a procedure path the last `/` separates the service from a method name without `/`. */
  lemma LastSlash(service: string, methodName: string)
    requires '/' !in methodName
    ensures var p := Procedure(service, methodName);
      && p[|p| - |methodName| - 1] == '/'
      && (forall j :: |p| - |methodName| <= j < |p| ==> p[j] != '/')
      && p[|p| - |methodName|..] == methodName
      && p[1..1 + |service|] == service
  {
    var p := Procedure(service, methodName);
    forall j | |p| - |methodName| <= j < |p| ensures p[j] != '/' {
      assert p[j] == methodName[j - (|p| - |methodName|)];
    }
  }

  /** When method names hold no `/`, the procedure path determines service and method. */
  lemma ProcedureInjective(s1: string, m1: string, s2: string, m2: string)
    requires '/' !in m1 && '/' !in m2
    requires Procedure(s1, m1) == Procedure(s2, m2)
    ensures s1 == s2 && m1 == m2
  {
    LastSlash(s1, m1);
    LastSlash(s2, m2);
  }

  /** The description is empty, one trimmed comment, or both joined by ` | `. */
  lemma DescriptionCases(leading: string, trailing: string)
    ensures leading == "" && trailing == "" ==> Description(leading, trailing) == ""
    ensures leading != "" && trailing == "" ==> Description(leading, trailing) == TrimSpace(leading)
    ensures leading == "" && trailing != "" ==> Description(leading, trailing) == TrimSpace(trailing)
    ensures leading != "" && trailing != "" ==>
      Description(leading, trailing) == TrimSpace(leading) + " | " + TrimSpace(trailing)
  {
    var parts := DescriptionParts(leading, trailing);
    if leading != "" && trailing != "" {
      assert parts == [TrimSpace(leading), TrimSpace(trailing)];
      assert parts[1..] == [TrimSpace(trailing)];
      assert Join(parts[1..], " | ") == TrimSpace(trailing);
    }
  }

  // ----------------------------------------------------------- the projection

  /** A unary method together with the service it belongs to: what one tool is built from. */
  datatype Endpoint = Endpoint(service: Service, rpc: Method)

  /** The unary methods among `ms` of service `s`, in order. */
  function MethodEndpoints(s: Service, ms: seq<Method>): seq<Endpoint>
  {
    if ms == [] then []
    else
      var m := ms[|ms| - 1];
      MethodEndpoints(s, ms[..|ms| - 1]) + (if Unary(m) then [Endpoint(s, m)] else [])
  }

  /** The unary methods of the allowed services among `ss`, in order. */
  function ServiceEndpoints(ss: seq<Service>, allow: set<string>): seq<Endpoint>
  {
    if ss == [] then []
    else
      var s := ss[|ss| - 1];
      ServiceEndpoints(ss[..|ss| - 1], allow) + (if Allowed(allow, s.fullName) then MethodEndpoints(s, s.methods) else [])
  }

  /** The unary methods of the allowed services of all files, in the order lines 212-260 visit them. */
  function Endpoints(files: seq<File>, allow: set<string>): seq<Endpoint>
  {
    if files == [] then []
    else Endpoints(files[..|files| - 1], allow) + ServiceEndpoints(files[|files| - 1].services, allow)
  }

  /** `f` applied to each element of `s`, in order. */
  function Map<A, B>(f: A -> B, s: seq<A>): (r: seq<B>)
    ensures |r| == |s|
  {
    if s == [] then [] else Map(f, s[..|s| - 1]) + [f(s[|s| - 1])]
  }

  lemma {:induction false} MapAppend<A, B>(f: A -> B, a: seq<A>, b: seq<A>)
    ensures Map(f, a + b) == Map(f, a) + Map(f, b)
  {
    if b == [] {
      assert a + b == a;
    } else {
      var n := |b| - 1;
      assert (a + b)[..|a + b| - 1] == a + b[..n];
      MapAppend(f, a, b[..n]);
    }
  }

  lemma {:induction false} MapAt<A, B>(f: A -> B, s: seq<A>, x: int)
    requires 0 <= x < |s|
    ensures Map(f, s)[x] == f(s[x])
  {
    var n := |s| - 1;
    if x < n {
      MapAt(f, s[..n], x);
      assert s[..n][x] == s[x];
    }
  }

  /** The tool of each endpoint, in order. */
  function ToolsOf(es: seq<Endpoint>, baseURL: string): seq<Tool>
  {
    Map((e: Endpoint) => ToolFor(e.service, e.rpc, baseURL), es)
  }

  /** The tools startup registers, in order. */
  function Tools(files: seq<File>, allow: set<string>, baseURL: string): seq<Tool>
  {
    ToolsOf(Endpoints(files, allow), baseURL)
  }

  lemma ToolsOfAppend(a: seq<Endpoint>, b: seq<Endpoint>, baseURL: string)
    ensures ToolsOf(a + b, baseURL) == ToolsOf(a, baseURL) + ToolsOf(b, baseURL)
  {
    MapAppend((e: Endpoint) => ToolFor(e.service, e.rpc, baseURL), a, b);
  }

  /** Position `x` of the tools is the tool of endpoint `x`. */
  lemma ToolsOfAt(es: seq<Endpoint>, baseURL: string, x: int)
    requires 0 <= x < |es|
    ensures ToolsOf(es, baseURL)[x] == ToolFor(es[x].service, es[x].rpc, baseURL)
  {
    MapAt((e: Endpoint) => ToolFor(e.service, e.rpc, baseURL), es, x);
  }

  /** Method `k` of service `j` of file `i` exists, its service is allowed, and it is unary. */
  predicate Eligible(files: seq<File>, allow: set<string>, i: int, j: int, k: int)
  {
    0 <= i < |files| && 0 <= j < |files[i].services| && Allowed(allow, files[i].services[j].fullName) &&
    0 <= k < |files[i].services[j].methods| && Unary(files[i].services[j].methods[k])
  }

  predicate EligibleIn(ss: seq<Service>, allow: set<string>, j: int, k: int)
  {
    0 <= j < |ss| && Allowed(allow, ss[j].fullName) && 0 <= k < |ss[j].methods| && Unary(ss[j].methods[k])
  }

  lemma {:induction false} MethodEndpointsComplete(s: Service, ms: seq<Method>, k: int)
    requires 0 <= k < |ms| && Unary(ms[k])
    ensures Endpoint(s, ms[k]) in MethodEndpoints(s, ms)
  {
    var n := |ms| - 1;
    if k < n {
      assert ms[..n][k] == ms[k];
      MethodEndpointsComplete(s, ms[..n], k);
    }
  }

  lemma {:induction false} MethodEndpointsSound(s: Service, ms: seq<Method>, e: Endpoint)
    requires e in MethodEndpoints(s, ms)
    ensures exists k :: 0 <= k < |ms| && Unary(ms[k]) && e == Endpoint(s, ms[k])
  {
    var n := |ms| - 1;
    var init := ms[..n];
    if e in MethodEndpoints(s, init) {
      MethodEndpointsSound(s, init, e);
      var k :| 0 <= k < |init| && Unary(init[k]) && e == Endpoint(s, init[k]);
      assert ms[k] == init[k];
    } else {
      assert Unary(ms[n]) && e == Endpoint(s, ms[n]);
    }
  }

  lemma {:induction false} ServiceEndpointsComplete(ss: seq<Service>, allow: set<string>, j: int, k: int)
    requires EligibleIn(ss, allow, j, k)
    ensures Endpoint(ss[j], ss[j].methods[k]) in ServiceEndpoints(ss, allow)
  {
    var n := |ss| - 1;
    var init, s := ss[..n], ss[n];
    if j < n {
      assert init[j] == ss[j];
      assert EligibleIn(init, allow, j, k);
      ServiceEndpointsComplete(init, allow, j, k);
    } else {
      MethodEndpointsComplete(s, s.methods, k);
    }
  }

  lemma {:induction false} ServiceEndpointsSound(ss: seq<Service>, allow: set<string>, e: Endpoint)
    requires e in ServiceEndpoints(ss, allow)
    ensures exists j, k :: EligibleIn(ss, allow, j, k) && e == Endpoint(ss[j], ss[j].methods[k])
  {
    var n := |ss| - 1;
    var init, s := ss[..n], ss[n];
    if e in ServiceEndpoints(init, allow) {
      ServiceEndpointsSound(init, allow, e);
      var j, k :| EligibleIn(init, allow, j, k) && e == Endpoint(init[j], init[j].methods[k]);
      assert ss[j] == init[j];
      assert EligibleIn(ss, allow, j, k);
    } else {
      assert Allowed(allow, s.fullName) && e in MethodEndpoints(s, s.methods);
      MethodEndpointsSound(s, s.methods, e);
      var k :| 0 <= k < |s.methods| && Unary(s.methods[k]) && e == Endpoint(s, s.methods[k]);
      assert EligibleIn(ss, allow, n, k);
    }
  }

  lemma {:induction false} EndpointsComplete(files: seq<File>, allow: set<string>, i: int, j: int, k: int)
    requires Eligible(files, allow, i, j, k)
    ensures Endpoint(files[i].services[j], files[i].services[j].methods[k]) in Endpoints(files, allow)
  {
    var n := |files| - 1;
    var init, f := files[..n], files[n];
    assert Endpoints(files, allow) == Endpoints(init, allow) + ServiceEndpoints(f.services, allow);
    if i < n {
      assert init[i] == files[i];
      assert Eligible(init, allow, i, j, k);
      EndpointsComplete(init, allow, i, j, k);
    } else {
      assert EligibleIn(f.services, allow, j, k);
      ServiceEndpointsComplete(f.services, allow, j, k);
    }
  }

  lemma {:induction false} EndpointsSound(files: seq<File>, allow: set<string>, e: Endpoint)
    requires e in Endpoints(files, allow)
    ensures exists i, j, k :: (Eligible(files, allow, i, j, k) &&
      e == Endpoint(files[i].services[j], files[i].services[j].methods[k]))
  {
    var n := |files| - 1;
    var init, f := files[..n], files[n];
    if e in Endpoints(init, allow) {
      EndpointsSound(init, allow, e);
      var i, j, k :| Eligible(init, allow, i, j, k) &&
        e == Endpoint(init[i].services[j], init[i].services[j].methods[k]);
      assert files[i] == init[i];
      assert Eligible(files, allow, i, j, k);
    } else {
      assert e in ServiceEndpoints(f.services, allow);
      ServiceEndpointsSound(f.services, allow, e);
      var j, k :| EligibleIn(f.services, allow, j, k) && e == Endpoint(f.services[j], f.services[j].methods[k]);
      assert Eligible(files, allow, n, j, k);
    }
  }

  /** Every unary method of an allowed service is projected to its tool. */
  lemma ToolsComplete(files: seq<File>, allow: set<string>, baseURL: string, i: int, j: int, k: int)
    requires Eligible(files, allow, i, j, k)
    ensures ToolFor(files[i].services[j], files[i].services[j].methods[k], baseURL) in Tools(files, allow, baseURL)
  {
    var es := Endpoints(files, allow);
    EndpointsComplete(files, allow, i, j, k);
    var x :| 0 <= x < |es| && es[x] == Endpoint(files[i].services[j], files[i].services[j].methods[k]);
    ToolsOfAt(es, baseURL, x);
  }

  /** Every projected tool is the tool of a unary method of an allowed service. */
  lemma ToolsSound(files: seq<File>, allow: set<string>, baseURL: string, t: Tool)
    requires t in Tools(files, allow, baseURL)
    ensures exists i, j, k :: (Eligible(files, allow, i, j, k) &&
      t == ToolFor(files[i].services[j], files[i].services[j].methods[k], baseURL))
  {
    var es := Endpoints(files, allow);
    var x :| 0 <= x < |es| && Tools(files, allow, baseURL)[x] == t;
    ToolsOfAt(es, baseURL, x);
    EndpointsSound(files, allow, es[x]);
  }

  /** The indices of the unary methods of `ms`. */
  function UnaryIndices(ms: seq<Method>): set<nat>
  {
    set k: nat | k < |ms| && Unary(ms[k])
  }

  function ServiceCount(ss: seq<Service>, allow: set<string>): nat
  {
    if ss == [] then 0
    else
      var s := ss[|ss| - 1];
      ServiceCount(ss[..|ss| - 1], allow) + (if Allowed(allow, s.fullName) then |UnaryIndices(s.methods)| else 0)
  }

  /** The number of unary methods of allowed services, over all files. */
  function EligibleCount(files: seq<File>, allow: set<string>): nat
  {
    if files == [] then 0
    else EligibleCount(files[..|files| - 1], allow) + ServiceCount(files[|files| - 1].services, allow)
  }

  lemma {:induction false} MethodEndpointsCount(s: Service, ms: seq<Method>)
    ensures |MethodEndpoints(s, ms)| == |UnaryIndices(ms)|
  {
    if ms != [] {
      var n := |ms| - 1;
      MethodEndpointsCount(s, ms[..n]);
      var last: set<nat> := if Unary(ms[n]) then {n} else {};
      assert UnaryIndices(ms) == UnaryIndices(ms[..n]) + last;
      assert n !in UnaryIndices(ms[..n]);
    }
  }

  lemma {:induction false} ServiceEndpointsCount(ss: seq<Service>, allow: set<string>)
    ensures |ServiceEndpoints(ss, allow)| == ServiceCount(ss, allow)
  {
    if ss != [] {
      var s := ss[|ss| - 1];
      ServiceEndpointsCount(ss[..|ss| - 1], allow);
      MethodEndpointsCount(s, s.methods);
    }
  }

  lemma {:induction false} EndpointsCount(files: seq<File>, allow: set<string>)
    ensures |Endpoints(files, allow)| == EligibleCount(files, allow)
  {
    if files != [] {
      EndpointsCount(files[..|files| - 1], allow);
      ServiceEndpointsCount(files[|files| - 1].services, allow);
    }
  }

  /** One tool per unary method of an allowed service. */
  lemma ToolsCount(files: seq<File>, allow: set<string>, baseURL: string)
    ensures |Tools(files, allow, baseURL)| == EligibleCount(files, allow)
  {
    EndpointsCount(files, allow);
  }

  /** No projected tool name holds a `.`. */
  lemma ToolNamesDotFree(files: seq<File>, allow: set<string>, baseURL: string)
    ensures forall t :: t in Tools(files, allow, baseURL) ==> '.' !in t.name
  {
    forall t | t in Tools(files, allow, baseURL) ensures '.' !in t.name {
      ToolsSound(files, allow, baseURL, t);
      var i, j, k :| Eligible(files, allow, i, j, k) &&
        t == ToolFor(files[i].services[j], files[i].services[j].methods[k], baseURL);
      ToolNameShape(files[i].services[j].fullName, files[i].services[j].methods[k].name);
    }
  }

  /** An allow-list that names none of the services yields no tools, and no error. */
  lemma UnmatchedAllowListYieldsNothing(files: seq<File>, allow: set<string>, baseURL: string)
    requires allow != {}
    requires forall i, j :: 0 <= i < |files| && 0 <= j < |files[i].services| ==> files[i].services[j].fullName !in allow
    ensures Tools(files, allow, baseURL) == []
  {
    var tools := Tools(files, allow, baseURL);
    if tools != [] {
      ToolsSound(files, allow, baseURL, tools[0]);
      assert false;
    }
  }

  // --------------------------------------------------------- startup methods

  /** The first import of a file that the registry cannot resolve, if any. */
  function Unresolved(deps: seq<string>, registered: set<string>): (r: Option<string>)
    ensures r.None? <==> forall d :: d in deps ==> d in registered
    ensures r.Some? ==> r.value in deps && r.value !in registered
  {
    if deps == [] then None
    else if deps[0] !in registered then Some(deps[0])
    else Unresolved(deps[1..], registered)
  }

  /** The tools of the first `k + 1` methods extend those of the first `k` by method `k`'s, if it is unary. */
  lemma MethodStep(s: Service, ms: seq<Method>, k: int, baseURL: string)
    requires 0 <= k < |ms|
    ensures ToolsOf(MethodEndpoints(s, ms[..k + 1]), baseURL) ==
      ToolsOf(MethodEndpoints(s, ms[..k]), baseURL) + (if Unary(ms[k]) then [ToolFor(s, ms[k], baseURL)] else [])
  {
    var e := Endpoint(s, ms[k]);
    assert ms[..k + 1][..k] == ms[..k];
    assert MethodEndpoints(s, ms[..k + 1]) == MethodEndpoints(s, ms[..k]) + (if Unary(ms[k]) then [e] else []);
    ToolsOfAppend(MethodEndpoints(s, ms[..k]), if Unary(ms[k]) then [e] else [], baseURL);
    assert [e][..0] == [];
  }

  /** The tools of the first `j + 1` services extend those of the first `j` by service `j`'s, if it is allowed. */
  lemma ServiceStep(ss: seq<Service>, allow: set<string>, j: int, baseURL: string)
    requires 0 <= j < |ss|
    ensures ToolsOf(ServiceEndpoints(ss[..j + 1], allow), baseURL) ==
      ToolsOf(ServiceEndpoints(ss[..j], allow), baseURL) +
      (if Allowed(allow, ss[j].fullName) then ToolsOf(MethodEndpoints(ss[j], ss[j].methods), baseURL) else [])
  {
    var s := ss[j];
    var last := if Allowed(allow, s.fullName) then MethodEndpoints(s, s.methods) else [];
    assert ss[..j + 1][..j] == ss[..j];
    assert ServiceEndpoints(ss[..j + 1], allow) == ServiceEndpoints(ss[..j], allow) + last;
    ToolsOfAppend(ServiceEndpoints(ss[..j], allow), last, baseURL);
  }

  /** The tools of the first `i + 1` files extend those of the first `i` by file `i`'s. */
  lemma FileStep(files: seq<File>, allow: set<string>, i: int, baseURL: string)
    requires 0 <= i < |files|
    ensures Tools(files[..i + 1], allow, baseURL) ==
      Tools(files[..i], allow, baseURL) + ToolsOf(ServiceEndpoints(files[i].services, allow), baseURL)
  {
    assert files[..i + 1][..i] == files[..i];
    ToolsOfAppend(Endpoints(files[..i], allow), ServiceEndpoints(files[i].services, allow), baseURL);
  }

  /** Lines 244-256: the tool one unary method of service `s` is exposed as. */
  method BuildTool(s: Service, m: Method, baseURL: string) returns (t: Tool)
    ensures t == ToolFor(s, m, baseURL)
  {
    var descriptions: seq<string> := [];
    if m.leadingComments != "" {
      descriptions := descriptions + [TrimSpace(m.leadingComments)];
    }
    ghost var leading := descriptions;
    if m.trailingComments != "" {
      descriptions := descriptions + [TrimSpace(m.trailingComments)];
    }
    var procedure := "/" + s.fullName + "/" + m.name;
    var description := Join(descriptions, " | ");
    var name := ReplaceAll(s.fullName + "__" + m.name, '.', '_');
    assert descriptions == leading + (if m.trailingComments != "" then [TrimSpace(m.trailingComments)] else []);
    assert description == Description(m.leadingComments, m.trailingComments);
    assert name == ToolName(s.fullName, m.name) && procedure == Procedure(s.fullName, m.name);
    t := Tool(name, description, procedure, baseURL + procedure, m.input);
  }

  /** Lines 228-258: the tools of the methods of one service, skipping streaming ones. */
  method ProjectService(s: Service, baseURL: string) returns (tools: seq<Tool>)
    ensures tools == ToolsOf(MethodEndpoints(s, s.methods), baseURL)
  {
    tools := [];
    var methods := s.methods;
    for k := 0 to |methods|
      invariant tools == ToolsOf(MethodEndpoints(s, methods[..k]), baseURL)
    {
      var m := methods[k];
      MethodStep(s, methods, k, baseURL);
      if m.clientStreaming || m.serverStreaming {
        continue;
      }
      var t := BuildTool(s, m, baseURL);
      tools := tools + [t];
    }
    assert methods[..|methods|] == methods;
  }

  /** Lines 220-259: the tools of the allowed services of one file, in order. */
  method ProjectServices(services: seq<Service>, allow: set<string>, baseURL: string) returns (tools: seq<Tool>)
    ensures tools == ToolsOf(ServiceEndpoints(services, allow), baseURL)
  {
    tools := [];
    for j := 0 to |services|
      invariant tools == ToolsOf(ServiceEndpoints(services[..j], allow), baseURL)
    {
      var s := services[j];
      ServiceStep(services, allow, j, baseURL);
      if |allow| > 0 && s.fullName !in allow {
        continue;
      }
      var serviceTools := ProjectService(s, baseURL);
      tools := tools + serviceTools;
    }
    assert services[..|services|] == services;
  }

  /** Lines 217-219: a file is registered unless a file with its path already is. */
  function Register(registry: seq<File>, f: File): (r: seq<File>)
    ensures |r| >= |registry| && r[..|registry|] == registry
    ensures NameSet(r) == NameSet(registry) + {f.name}
    ensures f.name in NameSet(registry) ==> r == registry
  {
    if f.name in NameSet(registry) then registry else registry + [f]
  }

  /** What the registry built from the first `i` files satisfies. */
  predicate RegistryOf(files: seq<File>, i: int, registry: seq<File>)
  {
    && 0 <= i <= |files|
    && NameSet(registry) == NameSet(files[..i])
    && NoDupNames(registry) && DepsFirst(registry) && DepsFirst(files[..i])
    && (forall f :: f in registry ==> f in files)
    && (NoDupNames(files) ==> registry == files[..i])
  }

  /** Registering the next file, once its imports resolve, keeps the registry's properties. */
  lemma RegisterStep(files: seq<File>, i: int, registry: seq<File>)
    requires RegistryOf(files, i, registry) && i < |files|
    requires forall d :: d in files[i].deps ==> d in NameSet(registry)
    ensures RegistryOf(files, i + 1, Register(registry, files[i]))
  {
    var f := files[i];
    assert files[..i + 1] == files[..i] + [f];
    DepsFirstAppend(files[..i], f);
    NameSetAppend(files[..i], [f]);
    if NoDupNames(files) {
      NoDupFresh(files, i);
    }
    if f.name !in NameSet(registry) {
      DepsFirstAppend(registry, f);
      NoDupAppend(registry, f);
    }
  }

  /** An import the registry cannot resolve shows the files are not in linkage order. */
  lemma UnresolvedStep(files: seq<File>, i: int, dep: string)
    requires 0 <= i < |files| && dep in files[i].deps && dep !in NameSet(files[..i])
    ensures !DepsFirst(files)
  {
    assert files[..i] == files[..i + 1][..i];
  }

  /**
   * Lines 211-260: link each file against the registry built so far (an
   * unresolvable import aborts startup), register it unless its path is
   * already registered, and project its services whether or not it was
   * registered just now.
   */
  method Project(files: seq<File>, allow: set<string>, baseURL: string) returns (r: Result<Startup, string>)
    ensures r.Success? <==> DepsFirst(files)
    ensures r.Failure? ==>
      exists i :: 0 <= i < |files| && r.error in files[i].deps && r.error !in NameSet(files[..i])
    ensures r.Success? ==> r.value.tools == Tools(files, allow, baseURL)
    ensures r.Success? ==> NoDupNames(r.value.registry) && DepsFirst(r.value.registry)
    ensures r.Success? ==>
      NameSet(r.value.registry) == NameSet(files) && forall f :: f in r.value.registry ==> f in files
    ensures r.Success? && NoDupNames(files) ==> r.value.registry == files
  {
    var registry: seq<File> := [];
    var paths: set<string> := {};
    var tools: seq<Tool> := [];
    for i := 0 to |files|
      invariant paths == NameSet(registry) && RegistryOf(files, i, registry)
      invariant tools == Tools(files[..i], allow, baseURL)
    {
      var f := files[i];
      var unresolved := Unresolved(f.deps, paths);
      if unresolved.Some? {
        UnresolvedStep(files, i, unresolved.value);
        return Failure(unresolved.value);
      }
      RegisterStep(files, i, registry);
      if f.name !in paths {
        registry := registry + [f];
        paths := paths + {f.name};
      }
      var fileTools := ProjectServices(f.services, allow, baseURL);
      FileStep(files, allow, i, baseURL);
      tools := tools + fileTools;
    }
    assert files[..|files|] == files;
    return Success(Startup(registry, tools));
  }

  /**
   * The discovery path of startup end to end: the allow-list is parsed, the
   * fetched files are put in linkage order, and the result is registered and
   * projected. It succeeds exactly when every import names a fetched file and
   * no chain of imports leads back to where it started: a cycle is not
   * refused by the ordering walk, but its order then fails to link.
   */
  method StartFromReflection(fetched: seq<File>, services: string, baseURL: string) returns (r: Result<Startup, string>)
    ensures r.Success? <==> Closed(Linkage.Collected(fetched)) && Acyclic(Linkage.Collected(fetched))
    ensures r.Success? ==>
      NoDupNames(r.value.registry) && DepsFirst(r.value.registry) && NameSet(r.value.registry) == NameSet(fetched)
    ensures r.Success? ==> Linkage.DrawnFrom(r.value.registry, Linkage.Collected(fetched))
    ensures r.Success? ==> r.value.tools == Tools(r.value.registry, AllowSet(services), baseURL)
  {
    var allow := ParseAllowList(services);
    var ordered := Linkage.LinkOrder(fetched);
    if ordered.Failure? {
      return Failure(ordered.error);
    }
    r := Project(ordered.value, allow, baseURL);
    if r.Success? {
      Linkage.LinkableIsAcyclic(ordered.value, Linkage.Collected(fetched));
    }
  }
}
