# auto-password-fill — a verified model of the fill engine

This project models the part of the auto-password-fill browser extension that does the work:

- **The configuration store** (`utils/storage.ts`). One persisted blob `{domainConfigs, accounts}` is read, changed and written back whole.
  - Accounts belong to a configuration by the id prefix `configId + "-"`.
  - Host names are looked up against stored domain patterns, first match in storage order.
  - Saving a default account clears the default flag on the other accounts in its sweep scope.
- **The fill pass and its orchestration** (`content.ts`):
  - `autoFill`, with its precondition checks and selector loop;
  - the bounded retry of `autoFillWithRetry`;
  - `initAutoFill`;
  - the mutation-observer gate over the page flags `hasFilled` and `lastFillTime`;
  - the explicit fill message;
  - the two locator generators, `getXPath` and `getCSSSelector`.
- **Element resolution and value injection** (`utils/dom.ts`): the filter of `findInputElement`, and `fillInput` as an update of an element's `value` or `textContent` plus its log of dispatched events.

## Modules

- **`Types`**: the persisted datatypes of `types.ts`, without the deprecated fields.
- **`Seqs`**: the sequence operations the store is built from — filter, find index, upsert by id, and counting ids.
- **`Strings`**:
  - `split` by one character and `join`;
  - `trim` as a blank test;
  - ASCII `toLowerCase`;
  - decimal rendering of clock readings.
- **`DomainMatch`**: the anchored wildcard matcher built in `findDomainConfigByDomain`. It is proved equal to a reference semantics: each `*` is replaced by a word without line terminators.
- **`Storage`**: the store.
  - The class `Store` has one method per operation. Each method is proved against functions on the snapshot.
  - The lemmas about those functions state upsert shape, once-only presence, the default sweep, cascade delete, first-match lookup, the default fallback and grouping.
- **`Dom`**: the class `PageElement`, the query engines as an oracle `Page` (locator string to first element found), `FindInputElement`, `FillEffect` and the method `FillInput`.
- **`AutoFill`**:
  - the pass: `Prepare` for the checks, `Plan` for the fills in selector order, `PreparedResult` for the accounting;
  - the methods `AutoFill`, `FillSelectors` and `AutoFillWithRetry`, which fill elements in place;
  - the gate as a state machine over explicit events, with its lemmas;
  - the class `ContentScript`, holding the two page flags.
- **`Locators`**: `getXPath` and `getCSSSelector` over a node tree addressed by child-index paths.
  - `getXPath` is a method with the sibling loops, proved equal to the function `XPath`.
  - In a detached subtree, the path is proved to be the rendering of the element's location steps, and those steps select that element and no other.
  - In the document, the path is proved to be the path of the ancestor just below `html` followed by those steps. For that ancestor, only `/html/body` is unambiguous: another child of `html` gets no position, and two elements can share a path.

## Model

| member | source | states |
|---|---|---|
| Seqs.Filter | utils/storage.ts:29-32 | the kept entries are exactly the entries that satisfy the predicate, and there are no more of them than before |
| Seqs.FilterConcat | utils/storage.ts:82-86 | filtering distributes over concatenation, so survivors keep their relative order |
| Seqs.FilterKeepsAll | utils/storage.ts:101 | when every entry passes, the filter returns the sequence unchanged |
| Seqs.FilterKeepsNone | utils/storage.ts:86 | when no entry passes, the filter returns nothing |
| Seqs.FirstWhere | utils/storage.ts:115-122 | `find`: the index of the first entry that satisfies the predicate, none before it does, and -1 exactly when no entry does |
| Seqs.IndexOf | utils/storage.ts:38 | `findIndex` by id: the first index carrying the id, or -1 exactly when no entry carries it |
| Seqs.FindIndex | utils/storage.ts:55 | the linear scan returns that first index, or -1 |
| Seqs.Upsert | utils/storage.ts:38-44 | the read-modify-write by id: the first entry with the id is replaced at its index, or, when there is none, the new entry is appended |
| Seqs.UpsertCount | utils/storage.ts:38-44 | after an upsert the id is present, and exactly once when it was present at most once |
| Strings.Split | utils/storage.ts:65 | `split` returns at least one part, and no part contains the separator |
| Strings.JoinSplit | utils/storage.ts:65 | joining the parts with the separator gives back the input |
| Strings.SplitHead | utils/storage.ts:65 | `split(sep)[0]` is the longest prefix free of the separator |
| Strings.Lower | content.ts:243 | `toLowerCase` changes each character alone and keeps the length |
| Strings.LowerIsLower | content.ts:243 | lower-casing leaves no ASCII capital and is idempotent |
| Strings.NatToString | utils/storage.ts:155 | the decimal text of a clock reading is non-empty, digits only, with no leading zero |
| Strings.ParseNatToString | utils/storage.ts:155 | reading the digits back gives the number |
| Strings.NatToStringInjective | utils/storage.ts:155 | distinct clock readings give distinct texts |
| DomainMatch.GlobMatch | utils/storage.ts:119-121 | the test of `^p$` after `.` is escaped and `*` becomes `.*`: a literal character must match itself, a `*` consumes any run of characters that are not line terminators; `GlobMatchIff` characterises the language it accepts |
| DomainMatch.DomainMatches | utils/storage.ts:115-122 | the per-configuration test: the pattern equals the host, or the pattern's regular expression accepts it |
| DomainMatch.GlobMatchSound | utils/storage.ts:119-121 | every host the regular expression accepts is the pattern with each `*` replaced by a word without line terminators |
| DomainMatch.GlobMatchComplete | utils/storage.ts:119-121 | every such instance of the pattern is accepted |
| DomainMatch.GlobMatchIff | utils/storage.ts:119-121 | the matcher accepts exactly the language of the pattern |
| DomainMatch.LiteralMatch | utils/storage.ts:116-121 | a pattern without `*` matches exactly itself |
| DomainMatch.GlobMatchReflexive | utils/storage.ts:116-121 | every pattern matches its own text |
| DomainMatch.DomainMatchesIsGlob | utils/storage.ts:115-122 | so the equality test before the regular expression never changes the verdict |
| DomainMatch.WildcardSuffix | utils/storage.ts:119-121 | `*` plus a literal matches exactly the hosts that end with that literal, with any run of non-line-terminator characters, dots included, before it |
| DomainMatch.LiteralPrefix | utils/storage.ts:119-121 | a literal prefix without `*` matches itself and leaves the rest to the rest of the pattern |
| DomainMatch.ExampleSubdomain | utils/storage.ts:118-121 | `*.example.com` matches `app.example.com` |
| DomainMatch.ExampleNestedSubdomain | utils/storage.ts:118-121 | `*.example.com` matches `a.b.example.com`: the star crosses dots |
| DomainMatch.ExampleBareDomain | utils/storage.ts:118-121 | `*.example.com` does not match `example.com` |
| DomainMatch.ExampleInner | utils/storage.ts:115-121 | `a.*.com` matches `a.b.com`, and `example.com` matches itself |
| Storage.AccountsOf | utils/storage.ts:25-33 | an account is listed exactly when it is stored and its id starts with `configId + "-"` |
| Storage.AccountsOfConcat | utils/storage.ts:29-32 | the owned accounts keep storage order: the selection distributes over concatenation |
| Storage.UpsertConfig | utils/storage.ts:36-45 | `saveDomainConfig`'s list update: the stored entry with the id replaced by the configuration stamped `updatedAt = now`, or the configuration appended with both stamps `now`; `UpsertConfigShape` states the result |
| Storage.UpsertAccount | utils/storage.ts:53-61 | the same upsert for accounts |
| Storage.SweepScope | utils/storage.ts:65-67 | the prefix the sweep tests: the account id's first `-`-segment followed by `-` |
| Storage.ClearOtherDefaults | utils/storage.ts:64-71 | the `forEach`: every entry other than the saved id whose id starts with the scope loses its default flag, and the list keeps its length |
| Storage.SavedAccounts | utils/storage.ts:53-71 | the account list `saveAccount` writes back: the upsert, then the sweep when the saved account is a default; `SaveAccountEffect` states it entry by entry |
| Storage.UpsertConfigShape | utils/storage.ts:36-45 | an existing id is replaced at its first index with `updatedAt = now`, all other entries and the length stay; a new id is appended with both stamps `now` |
| Storage.UpsertConfigOnce | utils/storage.ts:36-45 | after saving, the configuration's id is present exactly once when it was present at most once |
| Storage.SaveAccountEffect | utils/storage.ts:53-71 | the whole effect of `saveAccount` on the account list: the saved account sits at its old index (or is appended) with its stamps; with `isDefault`, other entries in the sweep scope lose the flag; every other entry is unchanged |
| Storage.SaveDefaultSweep | utils/storage.ts:63-71 | after saving a default account it is flagged default, and no other account in its sweep scope is |
| Storage.SavedAccountsKeepIds | utils/storage.ts:64-71 | the sweep changes no id |
| Storage.SaveAccountOnce | utils/storage.ts:53-61 | the saved account is present exactly once when its id was present at most once |
| Storage.ScopeCoversOwned | utils/storage.ts:65-67 | every account owned by the saved account's configuration lies within the sweep scope |
| Storage.SaveDefaultUnique | utils/storage.ts:53-71 | default uniqueness: afterwards the saved account is the one and only default among the accounts its configuration owns |
| Storage.SweepCrossesConfigurations | utils/storage.ts:65-67 | the sweep is wider than ownership: saving a default of configuration `5-b` clears the default of an account of `5-a` |
| Storage.RemoveConfig | utils/storage.ts:81-82 | the configurations whose id differs from the deleted one, in order |
| Storage.RemoveOwned | utils/storage.ts:85-86 | the accounts whose id does not start with the deleted id plus `-`, in order |
| Storage.RemoveAccount | utils/storage.ts:100-101 | the accounts whose id differs from the deleted one, in order |
| Storage.DeleteConfigCascade | utils/storage.ts:80-96 | no configuration with the id remains, exactly the accounts with the prefix are removed, and the configuration owns nothing afterwards |
| Storage.DeleteKeepsOrder | utils/storage.ts:80-107 | all three delete filters keep the survivors' relative order |
| Storage.DeleteAccountExact | utils/storage.ts:99-107 | exactly the accounts with that id are removed; when none has it, the list is unchanged |
| Storage.FindConfig | utils/storage.ts:113-124 | the first configuration, in storage order, whose domain matches the host, or none; `FindConfigSpec` states it |
| Storage.FindConfigSpec | utils/storage.ts:110-125 | null exactly when no pattern matches the host, and otherwise the first matching configuration in storage order |
| Storage.DefaultAccountOf | utils/storage.ts:131-132 | among the owned accounts, the first flagged default, else the first, else none; `DefaultAccountSpec` states it |
| Storage.DefaultAccountSpec | utils/storage.ts:128-133 | none exactly when the configuration owns no account; otherwise an owned account: the first flagged default, or else the first owned one |
| Storage.GroupByConfig | utils/storage.ts:159-167 | one group per configuration |
| Storage.GroupByConfigContents | utils/storage.ts:163-166 | group `i` holds configuration `i` and exactly the accounts it owns |
| Storage.Substr | utils/storage.ts:155 | `substr` returns at most `length` characters |
| Storage.GenerateId | utils/storage.ts:154-156 | the decimal clock reading, `-`, and the nine characters after `0.` of the base-36 random text |
| Storage.GeneratedScope | utils/storage.ts:154-156 | the first `-`-segment of a generated id, and of an account id built on it, is the creation time, so the sweep scope is that `time-` |
| Storage.Store.GetAllDomainConfigs | utils/storage.ts:11-15 | an absent blob reads as no configurations, otherwise the stored list |
| Storage.Store.GetAllAccounts | utils/storage.ts:18-22 | an absent blob reads as no accounts, otherwise the stored list |
| Storage.Store.GetAccountsByDomainConfigId | utils/storage.ts:25-33 | the prefix-owned accounts of the snapshot |
| Storage.Store.FindDomainConfigByDomain | utils/storage.ts:110-125 | the first-match lookup on the stored configurations |
| Storage.Store.GetDefaultAccount | utils/storage.ts:128-133 | the default fallback on the stored accounts |
| Storage.Store.GetDomainsWithAccounts | utils/storage.ts:159-167 | the grouping of the snapshot |
| Storage.Store.SaveDomainConfig | utils/storage.ts:36-50 | the blob afterwards holds the upserted configurations and the old accounts |
| Storage.Store.SaveAccount | utils/storage.ts:53-77 | the blob afterwards holds the upserted and swept accounts and the old configurations; the sweep loop is proved against the sweep function |
| Storage.Store.DeleteDomainConfig | utils/storage.ts:80-96 | the blob afterwards holds both filtered lists |
| Storage.Store.DeleteAccount | utils/storage.ts:99-107 | the blob afterwards holds the filtered accounts and the configurations unchanged, `defaultAccountId` included |
| Storage.Store.ExportStorageData | utils/storage.ts:136-144 | the stored blob, or empty lists when there is none |
| Storage.Store.ImportStorageData | utils/storage.ts:147-151 | the blob is replaced whole, and a following read returns exactly it |
| Dom.Accepted | utils/dom.ts:29-33 | the filter of `findInputElement`: tag `INPUT` or `TEXTAREA`, or a `contenteditable` attribute equal to `true` |
| Dom.Lookup | utils/dom.ts:2-16 | `getElementByXPath` or `getElementBySelector` by the selector type: the oracle's first element for the locator, or none |
| Dom.FindInputElement | utils/dom.ts:19-38 | XPath evaluation for `xpath` and a CSS query otherwise; a found element is returned exactly when it is `INPUT`, `TEXTAREA` or `contenteditable="true"`; null when the lookup finds nothing |
| Dom.FillEffect | utils/dom.ts:41-67 | a text control gets `value := v` and `input`, `change`, then a second `input` if the native setter exists; a `contenteditable` element gets `textContent := v` and one `input`; the text-control branch wins; any other element is unchanged |
| Dom.FillAcceptedEndsWithInput | utils/dom.ts:41-67 | filling an accepted element writes the field it uses, keeps the earlier log, dispatches `input` first, and ends with `change` only on a text control without the native setter |
| Dom.FillInput | utils/dom.ts:41-67 | the element's state after the assignments and dispatches is that effect |
| AutoFill.FindAccount | content.ts:29 | `accounts.find` by id: the first account with that id, or none |
| AutoFill.ChooseAccount | content.ts:26-32 | a truthy `accountId` is looked up among the configuration's owned accounts, otherwise the default account |
| AutoFill.FindAccountSpec | content.ts:29 | `find` by id: none exactly when no account carries the id, otherwise the first that does |
| AutoFill.ChooseAccountSpec | content.ts:26-32 | a truthy `accountId` is looked up only among the configuration's owned accounts; an absent or empty one uses the default |
| AutoFill.Prepare | content.ts:19-45 | the checks before any element is touched, in order: a configuration, a usable account with `autoFill` on, a selector, a selector value; the first that fails is the refusal, otherwise the configuration and account to fill with |
| AutoFill.PrepareSound | content.ts:19-45 | a pass that gets past the checks has the first matching configuration, an owned account with `autoFill` on, at least one selector and one value, and the requested or default account |
| AutoFill.PrepareOrder | content.ts:34-45 | the reported reason is the first failing check: missing or disabled account, then no selectors, then no values |
| AutoFill.ValueFor | content.ts:52-54 | `account.selectorValues[selector.id]` when that is truthy, otherwise nothing |
| AutoFill.Step | content.ts:51-72 | one turn of the loop: no fill without a truthy value or a fillable element, otherwise one fill of that element with the value |
| AutoFill.Plan | content.ts:51-73 | a pass makes at most one fill per selector |
| AutoFill.PlanSnoc | content.ts:51-73 | each selector adds its own step after the earlier ones |
| AutoFill.PlanConcat | content.ts:51-73 | skipping a selector never ends the loop: the fills of a list are the fills of its parts, in order |
| AutoFill.PlanCount | content.ts:47-73 | `filledCount` is the number of selectors with a truthy value and a fillable element |
| AutoFill.PlanEmpty | content.ts:51-82 | a pass fills nothing exactly when no selector is fillable |
| AutoFill.PlanTargets | content.ts:61-63 | every fill writes a non-empty value into a fillable element of the page |
| AutoFill.PreparedWrites | content.ts:47-73 | the fills of a pass: none when a check refused, otherwise the fills of the selector loop in order |
| AutoFill.PreparedResult | content.ts:75-82 | the reported result: the refusal, or `Filled(n, selectors)` when `n > 0` fills were made, or the nothing-filled failure |
| AutoFill.PreparedAccounting | content.ts:75-82 | success exactly when something was filled; `filledCount` is the number of fills, `totalSelectors` the number of selectors, and `0 < filledCount <= totalSelectors` |
| AutoFill.PassResult | content.ts:15-87 | the result of `autoFill(accountId)` for a host, a store snapshot and a page |
| AutoFill.PassAccounting | content.ts:19-82 | the same for a whole pass: the preconditions hold when it fills, and a refused pass touches nothing |
| AutoFill.PassSucceedsIff | content.ts:15-87 | a pass succeeds exactly when the checks pass and some selector of the configuration is fillable |
| AutoFill.Replay | content.ts:61-64 | an element's state after a pass's `fillInput` calls in order: each fill that targets the element applies `FillEffect`, the others leave it alone |
| AutoFill.ReplayConcat | content.ts:51-73 | an element's state after the fills of two parts is the state after the first, replayed with the second |
| AutoFill.ReplayUntouched | content.ts:51-73 | an element that no fill targets keeps its state |
| AutoFill.LastWriteWins | content.ts:51-73 | when several selectors resolve to one text control, it ends with the last value, and its event log grows |
| AutoFill.ReplayGrows | content.ts:51-73 | fills only ever append to an element's event log |
| AutoFill.AutoFill | content.ts:15-87 | the method's result is the pass result, and every element of the page ends as the replay of the pass's fills |
| AutoFill.CheckPreconditions | content.ts:19-45 | the early returns come out as the checks `Prepare` states |
| AutoFill.FillSelectors | content.ts:47-73 | the loop's count is the number of fills, and the elements end as the replay of the fills in selector order |
| AutoFill.FillSelector | content.ts:52-72 | the loop body fills at most one element, exactly the step for that selector |
| AutoFill.AllFailEach | content.ts:100-111 | every pass before the returned one failed and filled nothing |
| AutoFill.RefusedAllFail | content.ts:100-114 | a refused pass fails on any page, so a refusal makes every retry fail |
| AutoFill.TrackedPass | content.ts:101 | one retry pass gives the pass result; its elements end as the replay of its fills; a failed pass leaves every element as it was |
| AutoFill.PreparedWritesTargets | content.ts:61-63 | every fill of a pass targets an element of the page that pass sees |
| AutoFill.AutoFillWithRetry | content.ts:95-115 | returns the first successful pass and runs no further pass; otherwise runs exactly `retries + 1` passes and returns the last; all earlier passes failed; sleeps only between the first `retries` attempts; the elements end as the returned pass leaves them |
| AutoFill.Observe | content.ts:147-167 | with `hasFilled`, nothing is scheduled and nothing changes; otherwise a pass is scheduled exactly when `now - lastFillTime > 3000`, and then `lastFillTime := now` |
| AutoFill.AfterPass | content.ts:132-136 | `hasFilled` is raised exactly by a successful pass and `lastFillTime` is not touched |
| AutoFill.Run | content.ts:147-167 | the page flags after a sequence of observer callbacks and finished automatic passes |
| AutoFill.Scheduled | content.ts:153-157 | the clock readings at which those callbacks queued a pass, in order |
| AutoFill.RunHasFilled | content.ts:90-92 | over any sequence of events `hasFilled` holds exactly when it held at the start or some pass succeeded: it is never lowered |
| AutoFill.FilledIsFinal | content.ts:149-151 | once `hasFilled` holds, mutations schedule nothing and the flags never change |
| AutoFill.RunConcat | content.ts:147-167 | the flags and the schedule after two runs of events compose |
| AutoFill.NoScheduleAfterSuccess | content.ts:147-160 | after a successful pass is reported, no later mutation schedules a pass |
| AutoFill.ScheduledLast | content.ts:153-155 | `lastFillTime` is the latest clock reading at which a pass was scheduled |
| AutoFill.ScheduledSpaced | content.ts:92-155 | scheduled passes are more than 3000 ms apart, and the first is more than 3000 ms after the initial `lastFillTime` |
| AutoFill.ContentScript.constructor | content.ts:90-91 | at load nothing is filled and `lastFillTime` is 0 |
| AutoFill.ContentScript.OnMutation | content.ts:147-167 | the callback updates the flags and schedules as `Observe` states |
| AutoFill.ContentScript.RunScheduledPass | content.ts:157-165 | the timer's pass is a default-account pass whose success raises `hasFilled` |
| AutoFill.ContentScript.InitAutoFill | content.ts:118-141 | `autoFillWithRetry()` with its defaults: at most four passes, four passes and two waits when none succeeds; `hasFilled` raised on success |
| AutoFill.ContentScript.HandleFillMessage | content.ts:192-198 | exactly one pass for the given or default account, reported as is; the flags are untouched |
| Locators.Position | content.ts:255-261 | one more than the number of element siblings before the element with the same tag name |
| Locators.BodyIndex | content.ts:230 | `document.body`: the root's first `body` or `frameset` child, if any |
| Locators.XPath | content.ts:223-274 | the path `getXPath` builds: `/html` for the root, `/html/body` for the body, `""` for a detached root, `/html/<tag>` for another child of `html`, otherwise the parent's path (or nothing when it is empty) followed by `/<tag>[k]` |
| Locators.ChildPath | content.ts:264-269 | the two template literals chosen by the truthiness of the parent's path |
| Locators.ElementIndices | content.ts:247-249 | the element children, as indices among the child nodes: all of them, only them, in order |
| Locators.SameTagNext | content.ts:256-260 | from one element sibling to the next, the same-tag count grows by the first's match |
| Locators.SameTagFirst | content.ts:256-260 | no element sibling precedes the first one |
| Locators.SiblingPosition | content.ts:247-261 | the two loops compute one more than the number of preceding element siblings with the same tag |
| Locators.GetXPath | content.ts:223-274 | the recursive method, with its loops, returns the path `XPath` defines |
| Locators.PositionUnique | content.ts:256-261 | a tag and a position single out one element among its siblings |
| Locators.SelectsOwnPath | content.ts:223-274 | the steps of an element's path lead to that element |
| Locators.SelectsOnlyOwnPath | content.ts:223-274 | and to no other element |
| Locators.StepsSelectExactly | content.ts:223-274 | the steps select an element exactly when it is the one they were generated for |
| Locators.XPathEmptyIff | content.ts:224-237 | the path is empty exactly for the root of a detached subtree |
| Locators.XPathStep | content.ts:246-269 | below the special cases, a level adds `/<tag>[k]` to the parent's path |
| Locators.ChildPathIsStep | content.ts:265-269 | both template literals give the parent's path followed by the step, so the truthiness test makes no difference |
| Locators.DetachedXPath | content.ts:234-269 | inside a detached subtree every level carries its position, and the path is the rendering of the steps from the subtree's root |
| Locators.DocumentXPath | content.ts:223-269 | in the document, the path is that of the ancestor just below `html` followed by one positioned step per further level |
| Locators.ExampleAmbiguousHtmlChild | content.ts:241-244 | a child of `html` gets no position, so inputs under two `div` children of `html` get the same path |
| Locators.ClassTokens | content.ts:283-285 | the space-separated parts of `className` that are not blank after `trim` |
| Locators.ClassSelectors | content.ts:286-287 | `.` before each part, joined without separator |
| Locators.CssSelector | content.ts:277-298 | `#id` for a non-empty id; else the lower-cased tag with the classes when there is one; else the lower-cased tag with `[name="…"]` for a truthy `name` attribute; else the lower-cased tag; `CssSelectorPriority` states it case by case |
| Locators.ClassSelectorsEmpty | content.ts:286-287 | the class part is empty exactly when there are no class tokens, and otherwise starts with `.` |
| Locators.ClassPartSpec | content.ts:282-291 | the class part lists exactly the non-blank space-separated parts, and is present exactly when one exists |
| Locators.CssSelectorPriority | content.ts:277-298 | a non-empty id wins; then the lower-cased tag with the classes; then a truthy `name` attribute; then the bare tag |
| Locators.CssSelectorIdIff | content.ts:277-280 | for a tag not starting with `#`, the selector starts with `#` exactly when the id is used |

## Behaviour worth knowing

- **Wildcard escaping.** Only `.` is escaped before `*` becomes `.*` (utils/storage.ts:119). Every other character of a pattern goes into the regular expression as it is.
- **What `*` matches.** It matches any run of characters that are not line terminators, dots included, so it can span several host-name labels (`ExampleNestedSubdomain`).
- **Number of passes.** `autoFillWithRetry` makes up to `retries` attempts and then one final call (content.ts:100-114). When nothing fills, that is `retries + 1` passes: four with the default of three (`ContentScript.InitAutoFill`).
- **Refusals are retried.** The retry loop repeats any unsuccessful pass (content.ts:103), including one refused for a missing configuration or account (`RefusedAllFail`).
- **Default sweep scope.**
  - After a default account is saved, it is the only default among the accounts its configuration owns (`SaveDefaultUnique`).
  - The sweep clears every other account whose id starts with the first `-`-segment of the saved id, followed by `-` (utils/storage.ts:65-67).
  - Configuration ids made by `generateId` contain a `-`, so that scope is the configuration's creation time, which is wider than ownership (`GeneratedScope`, `SweepCrossesConfigurations`).
- **Scheduled passes are not re-gated.** A pass queued before `hasFilled` was raised still runs when its timer fires: the timer callback does not test the flag (content.ts:157-165, `RunScheduledPass`). A fill requested by message is never gated (content.ts:193-198).
- **The observer runs from script load.** It is registered when the script loads (content.ts:147-189), while `initAutoFill` is still waiting. Its callbacks, and the passes they queue, can therefore run during `initAutoFill`'s waits, including between two retry passes.

## Left out

- **UI, background script and import check.** The React popup and modules, `background.ts`, and the JSON import check are not part of this model. `ImportStorageData` stores whatever it is given, as the store does.
- **Asynchrony.** `chrome.storage.local` is a field of the store. Its asynchrony, and races between concurrent read-modify-write cycles, are not modelled.
- **Timers and browser events.**
  - `setTimeout`, `MutationObserver`, `DOMContentLoaded` and `chrome.runtime.onMessage` become explicit method calls and gate events.
  - The 800 ms settle delay and the 1000 ms debounce are not modelled.
  - The body wait at content.ts:170-189 is not modelled.
  - The 500 ms retry delay is counted, not waited.
- **Clock and randomness.** `Date.now()` and `Math.random().toString(36)` are parameters: `now` and the random text.
  - The two clock reads on insert are taken as one reading.
  - The host name `window.location.hostname` is a parameter too.
- **The query engines.** `document.evaluate` and `querySelector` are an oracle (`Page`): locator string to first element. The page each retry pass sees is `views(k)`, and `universe` declares every element those pages can return.
- **The regular-expression engine.** It is modelled only for patterns whose characters other than `*` are literal, meaning no metacharacter besides `.`.
- **Exceptions.** The `try/catch` path of `autoFill` (content.ts:83-86) is not modelled. This includes the error raised when the `HTMLInputElement` value setter is applied to a textarea (utils/dom.ts:54-57).
- **Logging.** Console logging and the human-readable `message` texts are not modelled: a failure carries a reason code instead.
- **`getSelectors`.** The message handler at content.ts:200-219, which lists the page's inputs, is not modelled. The two generators it calls are.
- **Partial blobs.** A stored blob lacking `domainConfigs` or `accounts` cannot be built in the model, because both fields always exist. utils/storage.ts:14 and :21 read a missing field as `[]`.
- **Missing selector lists.** `autoFill`'s test for a missing selector list (content.ts:39) is the empty-list test, since the list always exists.
- Strings.Lower: only ASCII letters are lower-cased, so tag names are assumed to be ASCII. A custom or parser-created element may have non-ASCII letters in its name, which `toLowerCase` would change and the model does not.
- **Locator semantics.**
  - XPath name tests are taken as exact tag comparison, after lower-casing in the path.
  - The CSS side is not related to a CSS engine.
  - The final `return ""` of `getXPath` (content.ts:273) cannot be reached, because an element is always among its parent's element children. The model has no such branch.
  - For an element of a detached subtree, the generated path is relative to the subtree's root (`DetachedXPath`).
- Locators.CssSelectorIdIff: holds only for tags that do not start with `#`, which no HTML tag does.
- **Interleaving with `initAutoFill`.** `ContentScript.InitAutoFill` runs all of its passes as one atomic step.
  - In the source, observer callbacks and the passes they schedule can run during its awaits: the 800 ms settle (content.ts:127), the storage reads, and the 500 ms sleeps (content.ts:109).
  - The model cannot place such a callback between two retry passes. It can place one only before or after the whole call.
- **Inherited keys.** `account.selectorValues[selector.id]` (content.ts:52) also finds keys inherited through the prototype chain. For a selector id such as `constructor` or `toString` it yields a truthy function, which the source would fill in; `ValueFor` skips such ids. Ids made by `generateId` never take these names, so only hand-edited imported data reaches this case.
- AutoFill.AutoFillWithRetry: the elements each pass may touch are declared up front as `universe` rather than discovered, and the page seen by a pass is fixed for that pass.
