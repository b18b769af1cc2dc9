# grpcmcp startup and header logic, modelled in Dafny

grpcmcp is a bridge that exposes the unary methods of a gRPC (or Connect)
backend as MCP tools. This project models the deterministic parts of its
`main.go`:

- **Linkage order.** When descriptors are discovered by reflection, the
  returned file descriptors are collected into a map keyed by file name.
  `topSort` then walks each file's imports depth first, so that imports come
  before the files importing them. This is the `Linker` class in `linkage.dfy`:
  its `seen` set and `ds` output are fields that `Visit` updates in place.
  Go's map iteration order is arbitrary, so the outer loop picks its next key
  with `:|`. Everything proved therefore holds for every iteration order.
- **Registration and projection.** Each linked file is checked for imports the
  registry cannot resolve. It is registered unless its path already is, and
  each of its services is projected to tools (`projection.dfy`). Tools come
  only from services on the `-services` allow-list (every service when the
  list is empty) and only from unary methods. Each tool gets:
  - a name: `<service>__<method>` with every `.` replaced by `_`;
  - a description: the trimmed leading and trailing comments, joined by ` | `;
  - the procedure path `/<service>/<method>` and its URL under the base URL.
- **Headers** (`headers.dfy`):
  - the `-header "Key: Value"` flag, which adds a value;
  - the `-bearer` override of `Authorization`;
  - the merge of the configured headers into every outgoing request. A key
    with one configured value is set. Any other key is deleted, and then each
    configured value is added back in order.

The Go standard-library string functions the code relies on are modelled in
`strings.dfy`: `strings.Cut`, `TrimLeft`, `TrimSpace`, `Split`, `Join` and
`ReplaceAll`.

Main results:

- `Linker.Visit` never emits a name twice. A first visit of `d` that succeeds
  leaves every import of `d` in the map and its name in `seen`. Called from the
  top level, with nothing in progress, that means every import has been
  emitted. A failure names an import the map does not hold.
- On an acyclic map, `Visit` keeps its output in linkage order, whatever order
  the outer loop visits the map in.
- `Project` succeeds exactly when its input is in linkage order.
- An order that links proves the map acyclic (`LinkableIsAcyclic`). So the
  whole discovery path (`StartFromReflection`) succeeds exactly when the
  collected files are closed under imports and acyclic. A cycle is tolerated
  by the walk, but the order it produces then fails to link.
- The tools are exactly one per unary method of an allowed service, in order.
  This is `ToolsComplete`, `ToolsSound` and `ToolsCount`.

The code has three behaviours worth knowing when reading the model:

- A file whose path is already registered is not registered again, but its
  services are still projected (lines 217-220). So a repeated file registers
  its tools twice (`AddTool` is called twice for each). Only registration is
  skipped for a repeated file, not its projection; the code is followed here.
- Tool names are not unique: `a.b` and `a_b` give the same name
  (`ToolNameCollision`).
- A comment made only of white space is non-empty, so it adds an empty part
  to the description.

## Model

| member | source | states |
|---|---|---|
| Strings.Cut | main.go:109 | splits at the first separator; `found` iff the separator occurs; then the input is before + separator + after with no separator in before; otherwise before is the whole input |
| Strings.CutUnique | main.go:109 | cutting `a + [sep] + b` with no `sep` in `a` gives exactly `a` and `b` |
| Strings.TrimLeft | main.go:114 | the result is a suffix of the input, everything dropped is the trimmed character, and the result does not start with it |
| Strings.TrimSpace | main.go:247 | the input is white space + result + white space, and the result neither starts nor ends with white space |
| Strings.Split | main.go:144 | at least one piece; joining the pieces with the separator gives the input back; no piece holds the separator |
| Strings.SplitJoin | main.go:144 | splitting the join of separator-free pieces gives the pieces back |
| Strings.IsSpace | main.go:247-250 | defines white space as the characters of Unicode's White_Space property, which Go's `unicode.IsSpace` tests and `strings.TrimSpace` removes |
| Strings.Join | main.go:253 | no parts give the empty string, one part is returned as it is, and the first part begins the result; `Split` is its inverse (see `Strings.Split`, `Strings.SplitJoin`) |
| Strings.JoinSnoc | main.go:253 | appending a part to a non-empty list appends the separator and then that part |
| Strings.ReplaceAll | main.go:256 | same length; each position holds the replacement where the input held the replaced character, else the input's character |
| Strings.ReplaceAllConcat | main.go:256 | replacing commutes with concatenation |
| Strings.ReplaceAllUntouched | main.go:256 | a string without the replaced character is unchanged |
| Descriptors.AcyclicNotOnPath | main.go:92-97 | in an acyclic map, an import of the last file on an import chain is not on that chain, so the walk never re-enters a file in progress |
| Linkage.Collected | main.go:181-188 | the collected map's keys are exactly the fetched names, and each file is stored under its own name |
| Linkage.CollectedLastWins | main.go:185-187 | each name holds the last fetched file of that name |
| Linkage.Collect | main.go:181-188 | the loop builds exactly the collected map |
| Linkage.Linker.constructor | main.go:193-194 | starts with an empty `seen` set and empty output |
| Linkage.Linker.Visit | main.go:87-100 | a seen name changes nothing. Otherwise it appends the newly emitted files after the old output, with no name twice; `d`'s name ends in `seen` and `d` is emitted last; every import of `d` is in the map and its file's name in `seen`; every emitted file is `d` or a file of the map; a failure names an import missing from the map; with `track` set, the output stays in linkage order |
| Linkage.SortAll | main.go:193-197 | for every iteration order: succeeds iff the map is closed under imports; the output holds each of the map's names once and only the map's files; for an acyclic map it is in linkage order; a failure names an import missing from the map |
| Linkage.LinkOrder | main.go:181-198 | the same properties, stated over the fetched files |
| Linkage.ImportComesEarlier | main.go:213 | in an order that links, every import sits strictly before its importer |
| Linkage.ChainGoesBack | main.go:213 | along an import chain, positions in an order that links strictly decrease |
| Linkage.LinkableIsAcyclic | main.go:212-216 | a map whose files can be linked in some order has no import cycle |
| Headers.Header.constructor | main.go:119 | an empty header map |
| Headers.Header.Add | main.go:51 | the value is appended to the key's list and nothing else changes |
| Headers.Header.Set | main.go:47 | the key holds exactly that one value and nothing else changes |
| Headers.Header.Del | main.go:49 | the key is removed and nothing else changes |
| Headers.SetHeaderFlag | main.go:108-116 | fails iff the text has no `:`, leaving the map unchanged; otherwise appends the text after the first `:`, with its leading spaces trimmed, to the values of the key before it |
| Headers.HeaderFlagRoundTrip | main.go:109-114 | `key + ": " + value`, with no `:` in the key and no leading space in the value, reads back as that key and value |
| Headers.ApplyBearer | main.go:138-140 | a non-empty token replaces Authorization with the single value `Bearer <token>`; an empty one changes nothing |
| Headers.MergeKey | main.go:46-53 | the key ends with exactly its configured values, or absent when there are none, and no other key changes |
| Headers.MergeConfigured | main.go:44-55 | for every iteration order, each configured key ends with exactly its configured values (absent for an empty list), and every other request key is unchanged |
| Headers.OverrideReplacesValue | main.go:44-55 | a request carrying `X-A: 1` merged with a configured `X-A: 2` ends holding exactly `X-A: 2` |
| Projection.AllowSet | main.go:142-148 | an empty value gives the empty list, which admits every service; no allow-list entry holds a comma |
| Projection.ParseAllowList | main.go:142-148 | the loop builds exactly the set of comma-separated pieces |
| Projection.AllowSetOfNames | main.go:143-147 | listing names separated by commas gives exactly those names |
| Projection.ToolName | main.go:256 | defines the tool name, `<service>__<method>` with every `.` replaced by `_`; its length is the two names' plus two |
| Projection.Procedure | main.go:252 | defines the procedure path `/<service>/<method>`; it starts with `/` and is two longer than the two names |
| Projection.DescriptionParts | main.go:245-251 | defines the description's parts: each non-empty comment, leading before trailing, trimmed |
| Projection.Description | main.go:253 | defines the description as the parts joined by ` \| `; its four cases are `Projection.DescriptionCases` |
| Projection.ToolFor | main.go:244-256 | defines the tool built for one method: its name, description, procedure path, the base URL followed by that path, and its input message |
| Projection.Tools | main.go:212-258 | the reference definition of the tools: `ToolFor` of every unary method of every allowed service, in file, service and method order; `Projection.Project` is proved to compute it |
| Projection.ToolNameShape | main.go:256 | the name is the dot-replaced service, `__` and the dot-replaced method, and holds no `.` |
| Projection.QualifiedToolName | main.go:256 | `pkg.Greeter` with `SayHello` gives `pkg_Greeter__SayHello`, for any dot-free parts |
| Projection.ToolNameCollision | main.go:256 | names are not unique: services `a.b` and `a_b` give method `M` the same name |
| Projection.LastSlash | main.go:252 | the last `/` of a procedure path separates service and method |
| Projection.ProcedureInjective | main.go:252 | when method names hold no `/`, the procedure path determines service and method |
| Projection.DescriptionCases | main.go:245-253 | empty with no comments, the trimmed comment when there is one, and `lead + " \| " + trail` when there are both |
| Projection.Unary | main.go:231 | defines a method as unary when it streams neither from the client nor from the server |
| Projection.Allowed | main.go:223-227 | defines the allow-list rule: an empty list admits every service, otherwise only listed full names |
| Projection.MethodEndpoints | main.go:229-234 | the reference selection of a service's unary methods, in method order; its properties are the `MethodEndpoints` lemmas below |
| Projection.ServiceEndpoints | main.go:221-234 | the reference selection of the unary methods of the allowed services, in service then method order |
| Projection.Endpoints | main.go:212-234 | the reference selection over all files, in file, service and method order |
| Projection.MethodEndpointsComplete | main.go:229-234 | every unary method of a service is selected |
| Projection.MethodEndpointsSound | main.go:229-234 | only unary methods of the service are selected |
| Projection.ServiceEndpointsComplete | main.go:221-234 | every unary method of an allowed service is selected |
| Projection.ServiceEndpointsSound | main.go:221-234 | only unary methods of allowed services are selected |
| Projection.EndpointsComplete | main.go:212-234 | every unary method of an allowed service in any file is selected |
| Projection.EndpointsSound | main.go:212-234 | only unary methods of allowed services are selected |
| Projection.ToolsComplete | main.go:212-257 | every unary method of an allowed service becomes its tool |
| Projection.ToolsSound | main.go:212-257 | every tool is that of a unary method of an allowed service |
| Projection.MethodEndpointsCount | main.go:229-234 | one selection per unary method of the service |
| Projection.ServiceEndpointsCount | main.go:221-234 | one selection per unary method of each allowed service |
| Projection.EndpointsCount | main.go:212-234 | one selection per unary method of an allowed service, over all files |
| Projection.ToolsCount | main.go:212-257 | exactly one tool per unary method of an allowed service |
| Projection.ToolNamesDotFree | main.go:256 | no tool name holds a `.` |
| Projection.UnmatchedAllowListYieldsNothing | main.go:223-227 | an allow-list naming no service of the files yields no tools |
| Projection.Unresolved | main.go:213-216 | returns nothing iff every import is registered; otherwise an import that is not registered |
| Projection.UnresolvedStep | main.go:213-216 | an unresolvable import shows the input is not in linkage order |
| Projection.Register | main.go:217-219 | registering keeps the old registry as a prefix and adds the file's path to the registered paths; a path already registered leaves the registry as it is |
| Projection.RegisterStep | main.go:217-219 | registering the next file keeps the registry free of repeated paths and in linkage order, covering exactly the paths seen so far |
| Projection.BuildTool | main.go:244-256 | builds the tool derived for the method: its name, description, procedure and URL |
| Projection.ProjectService | main.go:228-258 | the tools of the service's unary methods, in method order |
| Projection.ProjectServices | main.go:220-258 | the tools of the allowed services' unary methods, in order |
| Projection.Project | main.go:211-258 | succeeds iff the files are in linkage order, and a failure names an import not yet registered. On success the registry has no repeated path, is in linkage order, covers exactly the files' paths, equals the input when it has no repeats, and the tools are those of every unary method of every allowed service |
| Projection.StartFromReflection | main.go:142-258 | succeeds iff the collected files are closed under imports and acyclic; the registry has no repeated path, is in linkage order, covers the fetched names and holds the collected files; the tools are exactly those of the allowed unary methods |

## Left out

- The reflection stream, reading and unmarshalling a descriptor-set file, and
  flag parsing: these are I/O. Their results enter the model as parameters:
  the fetched files, the `-services` text, the base URL and the bearer token.
- The environment lookup of `-bearer-env` (lines 134-136) is left out because
  it reads the process environment.
- Reading a descriptor set from a file (lines 201-209) is not modelled
  separately. Its files would go straight to `Project`, which covers
  registration and projection for any list of files.
- `protodesc.NewFile` is modelled only by its check that every import is
  already registered. Its other validations are library behaviour.
- The error ignored from `RegisterFile` (line 218) is not modelled. When a
  file's names conflict with ones already registered, `RegisterFile` refuses
  it, and a later file importing it then fails at `NewFile`. `Project`
  registers such a file anyway, so it does not capture that failure.
- Schema generation (`buf.Generate`), JSON and protojson marshalling, the
  Connect client, `CallUnary`, `insecureClient`, `responseInitializer`,
  `AddTool` and serving are left out. They are library or network calls. A
  tool records its input message name in place of its schema.
- Header-key canonicalisation done inside Go's `http.Header` methods: keys are
  taken to be canonical already.
- The `panic` calls are modelled as error results. An error carries the name
  of the missing import, not Go's message text.
- Strings are modelled as sequences of Unicode characters, while Go's strings
  are bytes. `Cut`, `TrimLeft`, `ReplaceAll` and `TrimSpace` give the same
  results on valid UTF-8, because their separators are ASCII and `IsSpace` is
  Unicode's White_Space set. Invalid UTF-8 is not modelled.
- Linkage.Linker.Visit: proves linkage order only under the ghost `track`
  flag (map keyed by name, acyclic, called along an import chain). On a
  cyclic map the walk still terminates and emits no name twice, but its
  order is not constrained.
- Tool-name uniqueness is not claimed, because the code does not guarantee it.
