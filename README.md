# hobgerblin backup server: a Dafny model of its core

hobgerblin is a small TypeScript service. It accepts backup uploads on
`/backup/:id` and streams each one to a storage backend: a local directory or
an S3 bucket. This project models the deterministic parts of the service and
proves properties about them:

- **Date and time formatting** (`src/formatters.ts`, and the copies in
  `src/index.ts`). Each calendar and clock field is rendered in decimal and
  padded to two characters, except the year. The three fields are joined
  with a separator, which defaults to `-`.
- **The backup request handler** (`src/index.ts`). The handler looks up the
  route id and answers 404 when the id is unknown. Otherwise it renders the
  filename template: first `{{date}}`, then first `{{time}}`, both from one
  clock reading. It calls the backend registered under the route's storage
  name and sets the body to `Done` once that call resolves.
- **Building the backend registry** (`src/storage/setup.ts`). A left fold
  over the entries of the storage configuration. Each entry is dispatched
  on its `backend` tag, `"s3"` or `"fs"`. Entries with any other tag are
  skipped.

The project has five modules, one per file:

- `Wrappers` (`wrappers.dfy`) holds `Option` and a promise `Outcome`.
- `Text` (`text.dfy`) models the JavaScript built-ins the code calls:
  `toString()` on non-negative safe integers, `padStart(2, "0")`, `join`,
  and `replace` with a string pattern. Two further functions are not
  called by the code:
  - `IndexOf` is the leftmost-occurrence search that `replace` performs.
  - `Split`, on a one-character separator, states that formatted values
    can be read back.
- `Formatters` (`formatters.dfy`), `StorageSetup` (`setup.dfy`) and
  `Server` (`server.dfy`) follow the three source files.

The formatters and the registry are pure and are modelled as functions. The
registry is a recursive fold into a `map`.

The handler works on Koa's mutable request context, so it is a method. It
runs on a `Context` object with these fields:

- the declared request length (`ctx.request.length`), which it reads;
- `status` and `body`, which it assigns;
- the list of storage calls made for the request.

The method belongs to an `App` object, whose constructor builds the
registry and the route table from the configuration, as `src/index.ts:64-67`
does. The method is proved against the pure decision function
`Server.Resolve`.

Beyond the context, the handler takes three inputs:

- the route id;
- the request's single clock reading, `now`;
- how the backend's promise settles, `settled`.

## Behaviour of the code

- **Unknown route.** An unknown route id only sets `status = 404`
  (`src/index.ts:72-75`). The body is left untouched and no backend is
  called.
- **Template that is not a string.** If a route's `filename` is missing or
  is not a string, `info.filename.replace` throws a `TypeError`
  (`src/index.ts:78`). The handler rejects before any backend is selected.
  The model shows this as `Threw(FilenameTypeError)`.
- **Unregistered backend.** If a route names a backend that is not in the
  registry, `storage[info.storage]` is `undefined` (`src/index.ts:84`).
  Dereferencing it throws, so the handler rejects. No dedicated status is
  set. The model shows this as `Threw(NoSuchBackend(name))`.
- **Month.** The month comes from `getMonth()`, which uses local time. The
  other fields use the UTC getters (`src/formatters.ts:2-12`,
  `src/index.ts:39-50`). The model takes every field as an independent
  input.

## Model

| member | source | states |
|---|---|---|
| Text.NatToDecimal | src/formatters.ts:2-3 | `toString()` of a non-negative safe integer, which every `Date` field is: a non-empty digit string with no leading zero; one character exactly below 10, two exactly in 10..99 |
| Text.DecimalRoundTrip | src/formatters.ts:2-4 | reading the digits of `toString()` back gives the number |
| Text.LeadingZero | src/formatters.ts:2-3 | a leading `'0'` added by padding does not change the value a digit string denotes |
| Text.Pad2 | src/formatters.ts:2-3 | `padStart(2, "0")`: the result has length max(2, \|s\|), ends with `s`, and is `'0'` before it |
| Text.Join | src/formatters.ts:6 | `join`: no parts give `""`, and the result starts with the first part |
| Text.JoinLength | src/formatters.ts:6 | a join of n ≥ 1 parts is as long as the parts together plus n − 1 separators |
| Text.JoinThree | src/formatters.ts:6 | `[a, b, c].join(sep)` is `a + sep + b + sep + c` |
| Text.Split | src/formatters.ts:6 | one-character `split`: at least one piece, and no piece contains the separator |
| Text.JoinSplit | src/formatters.ts:6 | joining the pieces of a one-character split with that character gives back the string |
| Text.SplitJoin | src/formatters.ts:6 | splitting a join of separator-free parts on its one-character separator gives back exactly those parts |
| Text.IndexOf | src/index.ts:78-80 | the search finds the leftmost occurrence of the pattern, and finds nothing exactly when the pattern does not occur |
| Text.ReplaceFirst | src/index.ts:78-80 | string `replace`: no occurrence leaves the text unchanged; otherwise only the first occurrence is replaced and the text after it, later occurrences included, is kept literally |
| Text.ReplaceFirstAfter | src/index.ts:78-80 | when the text before a pattern lacks the pattern's first character, that occurrence is the one replaced |
| Formatters.Field2 | src/formatters.ts:2-3 | a padded field has at least two digits: below 10 exactly one `'0'` is prefixed, from 10 on the decimal is unchanged, and below 100 the length is exactly 2 |
| Formatters.Field2Value | src/formatters.ts:10-12 | a padded field still denotes its number |
| Formatters.FormatDate | src/formatters.ts:1-7 | the date is `str(year) + sep + pad2(month + 1) + sep + pad2(day)`; the year is not padded |
| Formatters.FormatTime | src/formatters.ts:9-15 | the time is `pad2(hours) + sep + pad2(minutes) + sep + pad2(seconds)` |
| Formatters.DefaultSeparatorIsDash | src/formatters.ts:1-9 | leaving out the separator formats with `"-"`, for both date and time |
| Formatters.MonthField | src/formatters.ts:3 | for a month index 0..11 the month is two characters starting with `0` or `1`, denoting index + 1, which lies in 1..12 |
| Formatters.TimeLength | src/formatters.ts:9-14 | for clock fields in their `Date` ranges and a one-character separator the time is 8 characters long |
| Formatters.DateRoundTrip | src/formatters.ts:1-7 | for a one-character non-digit separator, splitting the date gives exactly the three fields, which denote year, month index + 1 and day |
| Formatters.TimeRoundTrip | src/formatters.ts:9-15 | for a one-character non-digit separator, splitting the time gives exactly the three fields, which denote hours, minutes and seconds |
| StorageSetup.ParseKind | src/storage/types.ts:12 | a tag names a backend kind exactly when it is `"fs"` or `"s3"`, and then it names that kind |
| StorageSetup.InitFilesystem | src/storage/filesystem/index.ts:10 | `filesystem.init` builds a filesystem backend over the entry's `baseDir` |
| StorageSetup.InitS3 | src/storage/s3/index.ts:15-16 | `s3.init` builds an S3 backend with the entry's client settings (`config.config`) and its `bucket` |
| StorageSetup.Init | src/storage/setup.ts:9-16 | the switch builds a backend exactly for a recognised tag, and the backend's kind is the one the tag names |
| StorageSetup.Step | src/storage/setup.ts:8-16 | one reduce step adds or overrides only the entry's own name, with that entry's backend, and keeps every other accumulated entry; unknown tags leave the accumulator as it was |
| StorageSetup.Reduce | src/storage/setup.ts:7-19 | the keys after the fold are the accumulator's keys plus the names of the entries with a recognised tag |
| StorageSetup.ReduceValues | src/storage/setup.ts:7-19 | after the fold each recognised entry's name maps to the backend built from that same entry, and accumulated names not among them keep their values |
| StorageSetup.Setup | src/storage/setup.ts:4-20 | the registry's key set is exactly the names with tag `"s3"` or `"fs"`, a subset of the configuration's names; an empty configuration gives an empty registry |
| StorageSetup.SetupEntry | src/storage/setup.ts:10-15 | an `"s3"` entry is registered with `s3.init` of that entry, an `"fs"` entry with `filesystem.init` of it, an entry with any other tag is absent, and the fold goes on past it |
| StorageSetup.SetupIsRegistry | src/storage/setup.ts:7 | whatever order `Object.entries` lists the configuration in, the fold builds the same registry: every recognised name with the backend of its own entry |
| Server.FormatDate | src/index.ts:38-44 | the local `formatDate` equals the shared `formatDate` with its default separator |
| Server.FormatTime | src/index.ts:46-52 | the local `formatTime` equals the shared `formatTime` with its default separator |
| Server.RenderFilename | src/index.ts:77-80 | a template with neither placeholder is the filename unchanged |
| Server.RenderedFieldsHaveNoBrace | src/index.ts:79-80 | the rendered date and time never contain `{`, so substituting the date cannot create or hide a `{{time}}` |
| Server.RenderInOrder | src/index.ts:77-80 | a `{{date}}` and a later `{{time}}` with no `{` before them are replaced in place by the date and the time of the same instant, and all other text stays as it is |
| Server.RenderExample | src/index.ts:78-80 | `backup-{{date}}-{{time}}.tar` at 2024-03-05 07:08:09 renders to `backup-2024-03-05-07-08-09.tar` |
| Server.Resolve | src/index.ts:72-88 | an unknown id is not found; a known id whose template is not a string fails at rendering; a known id whose storage name is not registered is a missing backend; otherwise the registered backend is called with the rendered filename and the declared length |
| Server.Context.constructor | src/index.ts:73-89 | a fresh request context has the given declared length and status, no body and no storage calls yet |
| Server.App.constructor | src/index.ts:64-67 | the registry is `setup(config.storage)` and the routes are `config.backups` |
| Server.App.HandleBackup | src/index.ts:71-90 | unknown id: status 404, no backend call, body untouched; template not a string: the handler throws before any call, status and body untouched; missing backend: the handler throws before any call; otherwise exactly one call to the resolved backend, and the body is `Done` only when that call resolves, else untouched and the handler rejects with the backend's reason |

## Left out

- Extraction of the fields from a JavaScript `Date` is left out. That covers
  the clock, UTC versus local time (`getMonth()` is local) and calendar
  validity. The formatters take the six fields as natural numbers.
- Text.NatToDecimal: gives all the digits for every natural number. It does
  not model JavaScript's exponent form from 10^21 on, or the rounded digits
  above 2^53. Every `Date` field is far below both.
- Negative years are left out. `getUTCFullYear()` can be negative and would
  print with a `-` sign. The year is a natural number here.
- Text.Split: models `split` only for a one-character separator, which is
  all the round-trip properties use.
- Text.ReplaceFirst: does not interpret `$` patterns in the replacement
  string. The handler only ever substitutes digits and `-`.
- The handler's `console.info` log line is left out because it is console
  I/O.
- Koa's own response handling is left out because it is framework code not
  in the source. That covers the default status, the 200 set when a body is
  assigned, and the 500 sent when the handler rejects. The model records the
  handler's own assignments and how its promise settles.
- Routing and decoding of the `:id` path segment by koa-router is left out.
  The id is an input.
- Server.App.HandleBackup: a route whose value is `null` is not
  represented, because routes are always records. In the code,
  `info.filename` would throw a `TypeError` there too. A route whose
  `storage` is missing or not a string is represented only through its name
  not being in the registry. The model's route table is always present. In
  the code, a configuration without a `backups` section makes every request
  throw at `ctx.params.id in backups` (`src/index.ts:72`).
- `backups` and the registry are plain maps. JavaScript's `in` and property
  lookup also see prototype properties such as `constructor`; that is not
  modelled.
- Fields missing from a storage entry would be `undefined` in JavaScript.
  They are `""` in the model.
- StorageSetup.Setup: every storage entry is a record, and the storage
  section is always present. Two failures of the code are therefore not
  represented. Both happen while the module loads (`src/index.ts:66`),
  before any server starts:
  - An entry written with nothing after its name parses to `null`, and
    `switch (config.backend)` throws a `TypeError` on it
    (`src/storage/setup.ts:9`). The model has no such entry, so its
    `""`-for-missing rule never comes into play for it.
  - A missing `storage` section makes `Object.entries(undefined)` throw
    (`src/storage/setup.ts:7`).
- StorageSetup.SetupIsRegistry: requires the entries to have distinct names, as
  the keys of a JavaScript object do.
- The filesystem backend's stream handling (`src/storage/filesystem/index.ts:10-29`)
  is left out because it is stream I/O. So is the S3 upload
  (`src/storage/s3/index.ts:15-34`), a call into `aws-sdk`. The model keeps
  only what each `init` captures from its entry, and how the backend's
  promise settles is an input of the handler. That input is either
  fulfilled or rejected. A promise that never settles is not represented.
  In the code, the filesystem backend settles only on the stream's `end` or
  `error` event (`src/storage/filesystem/index.ts:18-24`). If neither fires,
  the request stays open and the body is never set to `Done`.
- Starting the HTTP and HTTPS servers, `exit(1)`, argument parsing, YAML
  loading and reading the certificate files (`src/index.ts:54-64`,
  `src/index.ts:92-128`) are left out because they are network, process and
  file I/O. The configuration arrives already parsed.
- `src/logger.ts` is left out because it is a winston wrapper. Its only own
  logic calls the formatters with `/` and `:`, and the `Formatters`
  properties hold for every separator.
