# The option layer of the vault command line, in Dafny

This project models `command/base.go` of the vault CLI: the part shared by every
command that groups its flags into named sections, hides some of them from help,
renders the help text, and turns the resolved flags into an API client.

- **Client bootstrap** (`bootstrap.dfy`, module `Bootstrap`). `BaseCommand.Client` is a
  function of the command's settings and an environment:
  - an injected test client short-circuits everything;
  - otherwise the environment's configuration is read;
  - the address flag overrides the address when it is non-empty;
  - the six TLS flags replace the TLS settings when any of them is set;
  - `NewClient` yields the environment token;
  - the token helper is consulted only when that token is empty;
  - each of the four failures is wrapped with its own context text.

  `DefaultWrappingLookupFunc` returns the TTL's string form for every request when the
  TTL is non-zero, and defers to the api package's default lookup otherwise.
- **flagSet** (`command.dfy`, module `Command`).
  - `BaseCommand` is a class whose `flags` field is an `Option`. It stands for the
    `flags` pointer together with its `sync.Once` gate.
  - The `FlagSet` method builds the groups the `FlagSetBit` mask asks for on the first
    call, and returns the same object on every later call.
  - `Layout` is the reference for what a mask builds. The lemmas beside it state which
    groups exist, which flags they hold, in what order and with which defaults.
- **FlagSet and FlagSets** (`flaggroups.dfy`, module `FlagGroups`).
  - Both are classes.
  - `NewFlagSet` and `AddFlagSet` append groups.
  - `HideFlag` and `HiddenFlag` maintain and query the set of hidden names.
  - `Help` loops over the groups and their flags as the Go code does. It is proved equal
    to the reference rendering `HelpText.RenderHelp`.
  - `VisitAll` yields a group's flags sorted by name, since Go's `flag.FlagSet.VisitAll`
    visits flags in lexicographic order.
- **Help layout** (`help.dfy`, module `HelpText`).
  - printFlagTitle, printFlagDetail and wrapAtLength. wrapAtLength is a method that pads
    an array of lines in place, as the Go loop rewrites `lines[i]`.
  - The reference rendering of whole groups, with lemmas about the lines it produces,
    the order of the titles and the omission of hidden flags.
- **Supporting modules**.
  - `Text` (`text.dfy`) models the Go string operations base.go relies on:
    - the `[\s]+` replacement;
    - `strings.Split` and `strings.Join`;
    - `strings.TrimRight` of newlines;
    - Go's string order.
  - `Flags` (`flags.dfy`) holds flag records and the name sort.
  - `Wrappers` holds `Option` and `Result`.

Foreign code is passed in as parameters:
- `kr/text.Wrap` is a function of type `(string, int) -> string`;
- `time.Duration.String` is a function from the TTL to its text;
- `api.DefaultWrappingLookupFunc` is a function of operation and path;
- `ReadEnvironment` and `NewClient` are fields of `Bootstrap.Environment`;
- the `Example()` capability of a flag value is a function from default values to example text.

## Model

| member | source | states |
|---|---|---|
| Bootstrap.Client | command/base.go:57-120 | An injected test client is the result, unchanged; any client Client builds carries the lookup for the command's wrap TTL. |
| Bootstrap.TestClientShortCircuit | command/base.go:58-61 | With an injected client the result is that client whatever the environment, NewClient and the token helper do. |
| Bootstrap.AddressPrecedence | command/base.go:69-71 | The client's address is the address flag when it is non-empty and the environment's address otherwise. |
| Bootstrap.TLSActivation | command/base.go:73-85 | When any of ca-cert, ca-path, client-cert, client-key, tls-server-name, tls-skip-verify is set the client's TLS config holds exactly those six values; when none is, the environment's TLS settings are kept. |
| Bootstrap.NewClientSeesFlags | command/base.go:87-91 | A built client came from NewClient succeeding on the configuration with the address and TLS flags applied, and carries that configuration. |
| Bootstrap.EnvironmentTokenWins | command/base.go:96-99 | A non-empty environment token becomes the client's token, and replacing the token helper by anything changes nothing. |
| Bootstrap.HelperTokenUsed | command/base.go:99-111 | With an empty environment token the helper's Get result is the client's token, an empty one included. |
| Bootstrap.NoHelperUnauthenticated | command/base.go:99-119 | An empty environment token and no helper give an unauthenticated client and no error. |
| Bootstrap.TokenPrecedence | command/base.go:96-119 | For every built client: the environment token when it is non-empty or there is no helper, otherwise the token a successful helper returned. |
| Bootstrap.ReadEnvironmentError | command/base.go:65-67 | A failing ReadEnvironment yields "failed to read environment" with its cause, independent of NewClient and the helper. |
| Bootstrap.NewClientError | command/base.go:88-91 | A failing NewClient yields "failed to create client" with its cause, independent of the helper. |
| Bootstrap.TokenHelperError | command/base.go:103-106 | A helper that cannot be built yields "failed to get token helper" with its cause. |
| Bootstrap.TokenGetError | command/base.go:107-110 | A failing Get yields "failed to retrieve from token helper" with its cause. |
| Bootstrap.FailureIff | command/base.go:57-120 | Without a test client, Client fails exactly when ReadEnvironment fails, NewClient fails, or the environment token is empty, a helper is present, and building it or its Get fails. |
| Bootstrap.HelperTokenScenario | command/base.go:96-119 | An empty environment token and a helper returning "abc123" give exactly the configured client with token "abc123". |
| Bootstrap.EnvironmentTokenScenario | command/base.go:96-119 | Environment token "envtok" beats a helper that would return "other". |
| Bootstrap.ClientError.Message | command/base.go:66 | The wrapped error's text is the context, ": ", then the cause, unchanged. |
| Bootstrap.DefaultWrappingLookup | command/base.go:122-130 | The TTL's string form when the flag TTL is non-zero, else what the api default lookup gives for that operation and path; WrappingLookupConstant and WrappingLookupDefault draw the per-request consequences. |
| Bootstrap.WrappingLookupConstant | command/base.go:124-127 | A non-zero TTL gives the same string, the TTL's string form, for every operation and path. |
| Bootstrap.WrappingLookupDefault | command/base.go:124-130 | A zero TTL gives whatever the api default lookup gives for that operation and path. |
| Command.HttpGroupIff | command/base.go:147-148 | "HTTP Options" is among the groups exactly when the HTTP bit is set. |
| Command.OutputGroupIff | command/base.go:235-236 | "Output Options" is among the groups exactly when the field bit or the format bit is set. |
| Command.OutputFlagsIff | command/base.go:238-262 | The output group holds -field exactly when the field bit is set and -format exactly when the format bit is set. |
| Command.LayoutOrder | command/base.go:147-263 | With both kinds of bits set there are two groups, HTTP first; FlagSetNone builds none. |
| Command.Defaults | command/base.go:149-232 | The HTTP group holds address, ca-cert, ca-path, client-cert, client-key, tls-server-name, tls-skip-verify, wrap-ttl in that order, with defaults "https://127.0.0.1:8200", empty strings, false and 0; format defaults to "table", field to "". |
| Command.HttpNamesAscending | command/base.go:149-232 | The HTTP flag names are registered in strictly increasing string order. |
| Command.LayoutVisitOrder | command/base.go:147-263 | Sorting any built group's flags by name leaves them as registered, so help lists them in registration order. |
| Command.BaseCommand.constructor | command/base.go:31-35 | A new command holds no flag groups yet: the `flags` pointer is nil and its once-gate has not fired, so the first FlagSet call builds them. |
| Command.BaseCommand.FlagSet | command/base.go:143-269 | The first call stores and returns fresh groups equal to the mask's layout with nothing hidden; every later call returns the stored groups and changes nothing, whatever the mask. |
| Command.BuildFlagSets | command/base.go:145-265 | The groups built inside the once-gate are fresh, hide nothing, and equal the mask's layout. |
| Command.AddHttpGroup | command/base.go:147-233 | "HTTP Options" with its eight flags is appended after the groups already present. |
| Command.AddOutputGroup | command/base.go:235-263 | "Output Options" with the mask's output flags is appended after the groups already present. |
| Command.DefineHttpFlags | command/base.go:147-233 | An empty group ends up with exactly the eight HTTP flags, in order. |
| Command.DefineOutputFlags | command/base.go:235-263 | An empty group ends up with field and then format, each present exactly when its bit is set. |
| FlagGroups.FlagSet.constructor | command/base.go:406-411 | A new group has the given name and no flags. |
| FlagGroups.FlagSet.Name | command/base.go:414-416 | The name the group was created with. |
| FlagGroups.FlagSet.Define | command/base.go:150-157 | Registering a flag with a new name appends it and keeps the names distinct. |
| FlagGroups.FlagSet.VisitAll | command/base.go:422-424 | Every registered flag exactly once, sorted by name. |
| FlagGroups.FlagSets.constructor | command/base.go:314-334 | No groups and no hidden names. |
| FlagGroups.FlagSets.NewFlagSet | command/base.go:337-341 | A fresh, empty group with the given name is appended after the existing groups; hidden names unchanged. |
| FlagGroups.FlagSets.AddFlagSet | command/base.go:344-348 | The group is appended after the existing ones; hidden names unchanged. |
| FlagGroups.FlagSets.HiddenFlag | command/base.go:374-377 | True exactly when the name is in the hidden set; HideFlag states how hiding changes the answer. |
| FlagGroups.FlagSets.HideFlag | command/base.go:367-377 | Afterwards HiddenFlag(n) holds, every other name's HiddenFlag answer is unchanged, and hiding an already hidden name changes nothing. |
| FlagGroups.FlagSets.Help | command/base.go:380-395 | The text equals the reference rendering of the groups in order with the current hidden names. |
| FlagGroups.FlagSets.GroupHelp | command/base.go:381-390 | One group's contribution: its title, then the details of its non-hidden flags in VisitAll order. |
| HelpText.PrintFlagTitle | command/base.go:271-274 | The title text unchanged, followed by exactly two newlines; TitleLines splits it into the title line and a blank line. |
| HelpText.TitleLines | command/base.go:272-274 | A title is its own line followed by one blank line. |
| HelpText.WrapAtLength | command/base.go:296-303 | The in-place padding loop produces the padded join of the lines of the wrap at 78 - pad. |
| HelpText.IndentedLines | command/base.go:296-303 | The lines of wrapAtLength's result are those of the wrap, one for one, each behind pad spaces, the first line included. |
| HelpText.PrintFlagDetail | command/base.go:276-292 | Starts with the flag's header line (`  -name` or `  -name=<example>`) and a newline, and ends with two newlines; FlagDetailLines gives every line in between. |
| HelpText.FlagDetailLines | command/base.go:277-292 | A flag's detail is its header line, then each line of the width-72 wrap of its collapsed usage behind six spaces, then a blank line. |
| HelpText.RenderHelp | command/base.go:394 | The help is a prefix of the rendered groups that does not end in a newline, and only newlines were cut. |
| HelpText.TitlesInOrder | command/base.go:382-391 | Group i's title starts right after the sections of groups 0..i-1, and every section is non-empty, so titles appear in the order groups were added. |
| HelpText.RenderGroupsAppend | command/base.go:382-391 | The sections of a concatenation of groups are the concatenation of their sections. |
| HelpText.HiddenOmitted | command/base.go:384-388 | Rendering with hidden names equals rendering only the flags whose names are not hidden. |
| HelpText.Visible | command/base.go:384-388 | A flag is kept exactly when it is one of the group's flags and its name is not hidden. |
| HelpText.VisibleOne | command/base.go:384-388 | A single flag is kept exactly when its name is not hidden. |
| HelpText.VisibleAppend | command/base.go:384-388 | The kept flags of a + b are those of a followed by those of b, so filtering preserves VisitAll order. |
| Text.CollapseWhitespace | command/base.go:289 | No two whitespace characters are adjacent in the result, it is no longer than the input, empty exactly when the input is, and starts with whitespace exactly when the input does. |
| Text.CollapseAppend | command/base.go:289 | Text that is empty or ends in a non-space collapses independently of what follows it. |
| Text.CollapseAllSpace | command/base.go:289 | A non-empty run made only of whitespace collapses to exactly one space. |
| Text.CollapseRun | command/base.go:289 | A run of whitespace between a piece ending in a non-space and a piece starting with one becomes exactly one space at that place. |
| Text.CollapseKeepsInk | command/base.go:289 | Collapsing keeps every non-whitespace character, in order. |
| Text.CollapseIdempotent | command/base.go:289 | Collapsing twice is collapsing once. |
| Text.SplitJoin | command/base.go:298-302 | Splitting a join of lines that contain no separator gives the lines back. |
| Text.JoinSplit | command/base.go:298-302 | Joining the parts of a split gives the text back. |
| Text.TrimRightNewlines | command/base.go:394 | The result is a prefix that does not end in a newline, and everything cut was a newline. |
| Text.LessTotal | command/base.go:422-424 | The string order is total and asymmetric on distinct strings. |
| Text.LessTransitive | command/base.go:422-424 | The string order is transitive. |
| Flags.SortByName | command/base.go:422-424 | The sorted flags are a permutation of the input. |
| Flags.SortByNameSorted | command/base.go:422-424 | The sort's result is in name order. |
| Flags.SortedPermutationUnique | command/base.go:422-424 | Two name-ordered permutations of the same flags with distinct names are equal, so the visit order is determined. |
| Flags.SortByNameKeepsSorted | command/base.go:422-424 | Flags already in strictly increasing name order are left as they are. |

## Left out

- `FlagSets.Parse`, `FlagSets.Args`, `FlagSet.Visit` and `FlagSets.Completions` (command/base.go:350-362, 418-420): thin delegation to Go's `flag` package and the completion library.
- The `mainSet` and `completions` that `AddFlagSet` shares with each group (command/base.go:345-346): they serve parsing and completion only.
- The pipe and goroutine in `NewFlagSets` that forward parser diagnostics to the UI, and the `ui` parameter (command/base.go:315-326): concurrency and I/O.
- `sync.Once`: only its build-at-most-once effect is modelled, sequentially, by the `Option` field.
- `api.DefaultConfig`, `ReadEnvironment`, `ConfigureTLS`, `NewClient`, `SetWrappingLookupFunc` and `api.DefaultWrappingLookupFunc`: foreign library calls, taken as inputs.
  - The configuration is reduced to its address and the last TLS settings applied.
  - `NewClient` is reduced to the environment token it picks up.
  - The installed lookup is recorded as the TTL it was built from.
- Bootstrap.Client: Go installs `c.DefaultWrappingLookupFunc`, a method value bound to the command, so it reads `flagWrapTTL` at each request. The model freezes the TTL at the moment Client runs.
- Bootstrap.TLSActivation: the TLS settings are recorded as the `TLSConfig` handed to `ConfigureTLS`. How that call merges them into the HTTP transport is foreign. The error it returns is ignored by base.go and by the model.
- `time.Duration.String` is abstract, and the TTL is kept in nanoseconds. A five-minute TTL reads "5m0s" in Go, so no particular string is assumed. The usage text of -wrap-ttl (command/base.go:230-231) writes TTLs like "5m"; that is input syntax, not what `Duration.String` prints.
- FlagGroups.FlagSet.Define: stands in for `StringVar`, `BoolVar` and `DurationVar`, which are not in base.go.
  - It only appends a flag record with its name, default, environment variable, usage and example.
  - It does not model target binding, the initial value taken from the environment variable, or completion predicates.
  - Go's flag package panics on a redefined name. The model makes the fresh name a precondition instead.
- The `FlagExample` capability is a parameter:
  - in `Command`, an `ExampleOf` function from a flag's default value to its example text;
  - in `Flags.Flag`, the resulting `example` field.
  - Go calls `Example()` on the flag's value when `Help` runs; the model fixes the example text from the default when the flag is built, so a value changed between definition and `Help` is not reflected.
- `kr/text.Wrap` is an abstract parameter. Its line-length guarantee is not assumed, so no lemma bounds line widths.
- The doc comment on `Client` says the client is cached on the command. The code never stores a client; it only returns one already injected into `c.client`. The model follows the code: a built client is returned, never stored.
- `BaseCommand.flagFormat` and `flagField` are targets of the output flags. Nothing in the core reads them, so `Bootstrap.Settings` omits them.
