# jorge core, modelled in Dafny

jorge is a static-site generator. Its source directory holds templates. A
template is a file headed by YAML front matter, the metadata between two `---`
lines, followed by a Liquid body. The project models five pieces of jorge:

- **Template parsing** (`templates.dfy`, module `Templates`).
  - Splitting a file's lines into the metadata text and the body.
  - The three error outcomes: unclosed front matter, invalid YAML, and a Liquid compile failure.
  - Classifying a template as a post or a draft.
  - The source and target file extensions.
- **Page rendering** (`site.dfy`, module `Sites`).
  - The base context and the page context.
  - The loop that renders a page and then each parent layout, each layout
    seeing the previous output as `content`.
  - The "layout not found" error.
  - The source-path index of posts and pages.
- **The development server** (`serve.dfy`, module `Serve`).
  - The file system that also serves `name.html` for `name`.
  - The event broker: subscribe, unsubscribe, publish.
  - The `data\n\n` frame written per event to a server-sent-event client.
  - The debounce of file-system events: chmod events are ignored, and each
    change re-arms a 100 ms timer.
  - The rebuild step, which notifies clients only when loading and building
    both succeed.
- **The `post` command** (`commands.dfy`, module `Commands`).
  - The slug of an ASCII title.
  - The file name built from the configured format (`:title`, `:year`, `:month`, `:day`).
  - The path under the source directory.
  - The content written: the default front matter, plus the Org directives
    for a `.org` file.
- **Go library behaviour the core relies on** (`text.dfy`, module `Text`).
  - `strings.TrimSpace`, `strings.ReplaceAll`, `filepath.Ext` and `filepath.Join`.
  - Line splitting.
  - Decimal and two-digit formatting.
- `wrappers.dfy` holds the `Option`, `Result` and `Outcome` types.

Some parts are given to the model as parameters, not modelled. These are
YAML decoding, Liquid compilation, template rendering, the outcome of
adding watchers, site loading and building, and the current date. Timers
run on logical time: each file-system event carries a time stamp in
milliseconds.

Notes on how the model treats the code:
- `Site.render` has no cycle detection (commands/site.go:31). When the
  layouts form a cycle and every render along it succeeds, its loop never
  ends; a failing render still stops it with that error.
  `Sites.CycleNeverEnds` proves that no finite chain exists on a cycle.
  `Sites.Render` is specified on the pages whose layout chain ends.
- The type assertions `layout.(string)` (commands/site.go:32) and
  `draft.(bool)` (markup/templates.go:126) panic on values of other types.
  - For `layout`, the model returns the error `LayoutNotAString`.
  - For `draft`, `IsDraft` requires a boolean.
- `Site.render` calls `Render(ctx)` on each template, as `site.go` does. The
  markup package's own `Render` takes no context. The markup file belongs
  to a later version than the site file.

## Model

| member | source | states |
|---|---|---|
| Templates.Parse | markup/templates.go:55-108 | The single scan's result equals `ParseOutcome`. Not a template, unclosed, YAML error, compile error or the template, decided from the split of the lines. |
| Templates.ScanFrontMatter | markup/templates.go:72-87 | The scan after the opening delimiter reports the front matter closed exactly when the split finds a closing delimiter, and then its two buffers are the split's metadata text and body. |
| Templates.FirstSeparator | markup/templates.go:75-86 | The closing delimiter is the first line after the opening one whose trimmed text is `---`, or there is none. |
| Templates.NotATemplate | markup/templates.go:63-69 | Parsing gives "no template, no error" exactly when the file is empty or its first line, trimmed, is not `---`. |
| Templates.UnclosedFrontMatter | markup/templates.go:89-91 | With an opening delimiter, parsing fails with "front matter not closed" exactly when no later line is a delimiter. |
| Templates.SplitAtFirstSeparator | markup/templates.go:75-87 | The lines between the first two delimiters are the metadata text. The rest, each line newline-terminated and one final newline dropped, is the body. |
| Templates.LaterSeparatorInBody | markup/templates.go:77-78 | A delimiter line after the closing one is kept verbatim in the body. |
| Templates.EmptyMetadataSkipsDecoder | markup/templates.go:93-94 | Empty metadata text is never decoded. The outcome does not depend on the decoder, and the template's metadata is empty. |
| Templates.DecoderFailureReported | markup/templates.go:95-98 | A decoder failure on non-empty metadata is the invalid-YAML error carrying the path and the decoder's error. |
| Templates.InvalidYamlNamesPath | markup/templates.go:97 | `Message`: the invalid-YAML message contains both the file's path and the decoder's message. |
| Templates.ErrorMessages | markup/templates.go:89-104 | `Message`: the unclosed-front-matter error reads "front matter not closed", and a compile error is reported as the compiler gave it. |
| Templates.ParsedTemplate | markup/templates.go:100-107 | A parsed template has the given path, the decoded metadata (empty for empty text), and the compiled body. |
| Templates.RoundTrip | markup/templates.go:61-87 | A file written as delimiter, metadata, delimiter, body splits back into that metadata and that body, less one trailing newline. |
| Text.JoinLinesOfLines | markup/templates.go:75-76 | Re-joining the scanner's lines, each with `\n`, gives the text back, with a newline added when the text lacked a final one. |
| Text.LinesHaveNoNewline | markup/templates.go:61-76 | No line the scanner yields contains a newline. |
| Text.TrimSpaceShape | markup/templates.go:67 | The trimmed line is empty iff the line is all white space; otherwise it neither starts nor ends with white space. |
| Templates.SrcExtIsSuffix | markup/templates.go:111-113 | `SrcExt`: the source extension is a suffix of the path that is empty or starts with `.`, with no `/` and no later `.`. |
| Templates.TargetExtRenames | markup/templates.go:116-122 | `TargetExt`: the target extension differs from the source extension exactly for `.org` and `.md`, and is then `.html`. |
| Templates.TargetExtOfPath | markup/templates.go:110-122 | The source extension is the path's final `.suffix`. The target extension is `.html` for `.org` and `.md`, and the source extension otherwise. |
| Text.ExtIsSuffix | markup/templates.go:112 | The extension is a suffix of the path that is empty or starts with `.`, and holds no other `.` and no `/`. |
| Templates.IsPostAnyDate | markup/templates.go:131-134 | `IsPost`: a `date` key makes a template a post whatever its value, and without the key it is not one. |
| Templates.DraftOnlyWhenTrue | markup/templates.go:124-129 | `IsDraft`: a template is a draft exactly when its metadata holds `draft: true`; an absent key means not a draft. |
| Templates.ParsedClassification | markup/templates.go:124-134 | A parsed template is a post iff its decoded metadata has `date`. Its draft flag is the boolean `draft` value, and false when the key is absent. With empty front matter it is neither. |
| Sites.BaseContext | commands/site.go:53-59 | The base context binds exactly `config`, `posts` and `tags`. |
| Sites.Render | commands/site.go:21-43 | The loop's result and its renderer calls equal the specification `Rendering`: render the page, then each layout of the chain in order. |
| Sites.RenderLayouts | commands/site.go:29-42 | The layout loop's result and calls equal `ApplyLayouts` over the chain it follows, ending in success, the first render error, or the error for how the chain ended. |
| Sites.ChainFuel | commands/site.go:30-36 | Following the `layout` keys gives the same chain whatever bound is used, once it ends. |
| Sites.LayoutNotFoundNamesLayout | commands/site.go:35-38 | `RenderMessage`: the "layout not found" message contains the layout's name, and a renderer error is passed on as it is. |
| Sites.CycleNeverEnds | commands/site.go:31-40 | When every layout of a set names a parent in the set, the chain from any of them never ends. |
| Sites.PageRenderedFirst | commands/site.go:22-24 | The first render is the page's own, with exactly `config`, `posts`, `tags` and `page` bound, and `page` is the page's metadata. |
| Sites.EveryRenderSeesPage | commands/site.go:22-35 | Every render, the page's and each layout's, sees the page's metadata as `page` and the base bindings. |
| Sites.LayoutsWrapPrevious | commands/site.go:32-36 | Render i+1 is layout i of the chain, with that layout's metadata as `layout` and render i's output as `content`. |
| Sites.FirstErrorStops | commands/site.go:24-42 | The renders stop at the first failure, the result is that failure, and every earlier render succeeded. |
| Sites.AllRendersSucceed | commands/site.go:30-42 | When every render succeeds there is one per chain element plus the page's. The result is the last output, or the error for how the chain ended. |
| Sites.NoLayoutSingleRender | commands/site.go:30-31 | A page without `layout` is rendered once, and the result is that render's outcome. |
| Sites.MissingLayoutFails | commands/site.go:37-38 | A page whose layout is not a known layout gets one render, then fails with "layout not found" or with its own render error. |
| Sites.TemplateIndex | commands/site.go:45-51 | The index's keys are the source paths of the posts and pages. Each value is a template with that path, and the last one with a path wins. |
| Sites.LastWinsStep | commands/site.go:47-48 | Storing template n keeps, for the first n+1 templates, each path's last template indexed. |
| Serve.Open | commands/serve.go:179-189 | The exact name wins. A missing name falls back to `name.html` when that opens. Any other error, or a failed fallback, reports the first attempt's result. |
| Serve.Channel.constructor | commands/serve.go:240 | A new channel is open and empty. |
| Serve.EventBroker.constructor | commands/serve.go:206-212 | A new broker has no subscribers and its id counter is 0. |
| Serve.EventBroker.Subscribe | commands/serve.go:238-243 | The new id is the next counter value. A fresh, empty channel is registered under it, and nothing else changes. |
| Serve.EventBroker.Unsubscribe | commands/serve.go:220-224 | The subscriber's channel is closed and removed; the queued events stay as they were. |
| Serve.EventBroker.Publish | commands/serve.go:225-229 | The event is appended to every subscriber's channel, and the subscriber set is unchanged. |
| Serve.PublishEach | commands/serve.go:225-229 | Publishing several events in turn appends all of them, in order, to every subscriber's channel. |
| Serve.WriteFrames | commands/serve.go:68-73 | The response body holds one `data\n\n` frame per event, in order. |
| Serve.EventStream | commands/serve.go:58-80 | A client connection subscribes, receives one frame per event published while connected, and unsubscribes. Other subscribers get the same events, and the broker's subscribers are as before. |
| Serve.Debounce | commands/serve.go:95-116 | The timer loop fires exactly the rebuild times of the specification `Rebuilds`. |
| Serve.RelevantKeeps | commands/serve.go:107-110 | The events kept are exactly those without a chmod operation. |
| Serve.InitialRebuild | commands/serve.go:95-97 | The first rebuild fires at time 0, before any file event is handled. |
| Serve.ChmodIgnored | commands/serve.go:107-110 | Any event carrying chmod, even combined with other operations, has no effect on when rebuilds fire. |
| Serve.BurstCoalesces | commands/serve.go:112-116 | Changes each within 100 ms of the previous one cause one rebuild, 100 ms after the last. |
| Serve.DeadlinesAt | commands/serve.go:112-116 | Element i of `Deadlines` is change i's time plus 100 ms; with `SpacedRebuildEach` this gives the rebuild time of each spaced change. |
| Serve.BurstAfterStart | commands/serve.go:92-116 | A burst of changes after start-up gives exactly two rebuilds: the initial one and one 100 ms after the burst's last change. |
| Serve.SpacedRebuildEach | commands/serve.go:112-116 | Changes at least 100 ms apart cause one rebuild each, 100 ms after the change. |
| Serve.RebuildSite | commands/serve.go:148-171 | "rebuild" is published to every subscriber iff loading and building both succeed. A watcher error is logged and does not stop the rebuild. The last log line is the load error, the build error, or "done" with the site URL. |
| Commands.Slugify | commands/commands.go:201-209 | The slug holds only lower-case letters, digits, `_` and `-`. |
| Commands.CollapseChars | commands/commands.go:205 | Collapsing white-space runs leaves only `-` and non-space characters of the input. |
| Commands.DropNonWordChars | commands/commands.go:206 | Removing non-word characters leaves only word characters and `-` taken from the input. |
| Commands.SlugifyIdempotent | commands/commands.go:201-209 | A slug is its own slug. |
| Commands.SlugifyIgnoresOuterSpace | commands/commands.go:202-203 | Leading and trailing white space does not change the slug. |
| Commands.SlugifyJoinsWords | commands/commands.go:199-206 | A word, any run of white space, and a rest that starts with a non-space character give the word's slug, a single `-`, and the rest's slug. Applied word by word, every white-space run inside a title becomes one `-`. |
| Commands.SlugOfWord | commands/commands.go:201-206 | A non-empty title without white space slugs to its lower-cased form with the non-word characters removed. |
| Commands.SlugHasNoColon | commands/commands.go:116-117 | A slug never contains `:`, so substituting it cannot create a placeholder. |
| Text.ReplaceAllAbsent | commands/commands.go:117 | Replacing a pattern that does not occur leaves the text unchanged. |
| Text.ReplaceAllHead | commands/commands.go:117 | An occurrence at the start is replaced and substitution continues after it. |
| Commands.NoPlaceholdersUnchanged | commands/commands.go:117-120 | A format with no placeholder is the file name as is. |
| Commands.ReplacePlaceholder | commands/commands.go:117-120 | Replacing one placeholder in a format whose literal text has no `:` substitutes exactly that placeholder's occurrences. |
| Commands.PostFilenameExpands | commands/commands.go:116-120 | `PostFilename`: the four substitutions in order give the format with each placeholder replaced by the slug, the year, or the two-digit month or day. |
| Text.Pad2 | commands/commands.go:119-120 | The two-digit rendering is all digits, has length 2 below 100, and reads back as the number. |
| Text.DigitsRoundTrip | commands/commands.go:118 | The decimal digits of a number read back as that number. |
| Text.Join | commands/commands.go:121 | Joining a directory and a name puts one `/` between them. An empty part is dropped. |
| Commands.PostPathExpands | commands/commands.go:116-121 | `PostPath`: the post's path is the source directory joined with the expanded file name. |
| Commands.PostPathExt | commands/commands.go:121-139 | A format ending in a literal extension gives the post's path that extension. |
| Commands.PostContentIsTemplate | commands/commands.go:33-44 | `PostContent`: a new post parses as front matter whose metadata lines are title, date, `layout: post`, lang and empty tags. The body is empty, or the two Org directives for a `.org` path. |
| Commands.OrgPostHasDirectives | commands/commands.go:136-141 | `PostContent`: a post whose format ends in `.org` gets the Org directives as its body. |

## Left out

- Reading files: `os.Open` errors, the scanner's line-length limit, and carriage-return stripping are left out. `Parse` takes the file's lines.
- YAML decoding, Liquid compilation and rendering, and Org and Markdown conversion are opaque functions given as parameters. None of them is modelled.
- `Value` has no floating-point or timestamp variant.
- Concurrency is left out: the broker's goroutine, blocking channel sends, and a slow subscriber holding up the others. Broker operations take effect at once, in call order.
- Wall-clock timers are left out. The debounce runs on the event time stamps, with each timer firing before a later event is handled.
- fsnotify, `addAll` and the directory walk are left out; adding watchers is one success-or-failure parameter. The HTTP headers and `Flush` are left out too.
- The `init`, `build` and project-directory commands and the interactive prompt are not modelled. `Post`'s prompt branch (commands/commands.go:128-133) tests `os.IsExist` on the error of `os.Stat`, which is never an already-exists error, so that branch does not run and an existing post file is overwritten by the write at commands/commands.go:143. The model has no such branch either; `os.Stat` is not modelled.
- Post's directory creation and file writing are not modelled.
- `time.Now` is not modelled: the date text and the year, month and day are parameters.
- Slugify: the model covers ASCII titles only. Unicode lower-casing and NFD normalisation are not modelled.
- Text.Join: does not apply the path cleaning that `filepath.Join` does after joining.
- Sites.TemplateIndex: stores each template by value. The source stores the address of the loop variable, and whether that address is shared between iterations depends on the Go version.
- Site rendering's cache and tag pages are not part of this model.
- Sites.Render: requires a layout chain that ends. The source has no cycle error: on a cycle it loops forever when every render succeeds, and otherwise stops with the first render error. The precondition excludes every cyclic page, including those where a render fails; `CycleNeverEnds` shows that a cyclic chain does not end.
- Templates.IsDraft: requires a boolean `draft` value wherever one is present. The source panics otherwise.
- Sites.Render: a non-string `layout` value becomes the error `LayoutNotAString`. In the source it is a panic.
