/**
 * The fill pass and its orchestration (content.ts): `autoFill`, the bounded
 * retry of `autoFillWithRetry`, and the gate of the mutation observer over the
 * page-level flags `hasFilled` and `lastFillTime`. The page's host name, the
 * clock and the page seen by each pass are parameters; timers and event
 * registration are replaced by explicit calls.
 */
module AutoFill {
  import opened Types
  import opened Seqs
  import opened Storage
  import opened Dom

  // ---------------------------------------------------------------------------
  // Pass results

  /** Why a pass reported `success: false`, in the order the checks are made. */
  datatype FailReason = ConfigNotFound | AccountUnavailable | NoSelectors | NoSelectorValues | NothingFilled

  /** `{success: false, message}` or `{success: true, filledCount, totalSelectors}`. */
  datatype FillResult = Failed(reason: FailReason) | Filled(filledCount: nat, totalSelectors: nat)

  /** The test `result.success && result.filledCount && result.filledCount > 0`. */
  predicate Succeeded(r: FillResult)
  {
    r.Filled? && r.filledCount > 0
  }

  /** An optional `accountId` argument, as JavaScript truthiness sees it. */
  predicate Truthy(accountId: Option<string>)
  {
    accountId.Some? && accountId.value != ""
  }

  // ---------------------------------------------------------------------------
  // Choosing the configuration and the account

  function HasId(id: string): Account -> bool
  {
    (a: Account) => a.id == id
  }

  /** `accounts.find((a) => a.id === id)`. */
  function FindAccount(accounts: seq<Account>, id: string): Option<Account>
  {
    var i := FirstWhere(accounts, HasId(id));
    if i < 0 then None else Some(accounts[i])
  }

  /** Nothing is found exactly when no account carries `id`; otherwise the first that does. */
  lemma FindAccountSpec(accounts: seq<Account>, id: string)
    ensures var r := FindAccount(accounts, id);
      && (r.None? <==> forall j :: 0 <= j < |accounts| ==> accounts[j].id != id)
      && (r.Some? ==> exists i :: (0 <= i < |accounts| && accounts[i] == r.value && r.value.id == id
            && forall j :: 0 <= j < i ==> accounts[j].id != id))
  {
  }

  /**
   * The account a pass uses: a truthy `accountId` is looked up among the
   * accounts the configuration owns, and only there; otherwise the default.
   */
  function ChooseAccount(accounts: seq<Account>, configId: string, accountId: Option<string>): Option<Account>
  {
    if Truthy(accountId) then FindAccount(AccountsOf(accounts, configId), accountId.value)
    else DefaultAccountOf(accounts, configId)
  }

  /**
   * With a truthy `accountId` an account is chosen exactly when the
   * configuration owns one with that id, and the one chosen is such an
   * account; otherwise the choice is the configuration's default.
   */
  lemma ChooseAccountSpec(accounts: seq<Account>, configId: string, accountId: Option<string>)
    ensures var r := ChooseAccount(accounts, configId, accountId);
      && (Truthy(accountId) ==>
            (r.Some? <==> exists a :: a in accounts && OwnedBy(a, configId) && a.id == accountId.value))
      && (Truthy(accountId) && r.Some? ==>
            r.value in accounts && OwnedBy(r.value, configId) && r.value.id == accountId.value)
      && (!Truthy(accountId) ==> r == DefaultAccountOf(accounts, configId))
  {
    if Truthy(accountId) {
      var owned := AccountsOf(accounts, configId);
      FindAccountSpec(owned, accountId.value);
      var r := FindAccount(owned, accountId.value);
      if r.Some? {
        assert r.value in owned;
      }
      if exists a :: a in accounts && OwnedBy(a, configId) && a.id == accountId.value {
        var a :| a in accounts && OwnedBy(a, configId) && a.id == accountId.value;
        assert a in owned;
      }
    }
  }

  datatype Prepared = Refused(reason: FailReason) | Ready(config: DomainConfig, account: Account)

  /**
   * The checks `autoFill` makes before touching the page, in order: a
   * configuration for the host, a usable account with `autoFill` on, at least
   * one selector, at least one selector value.
   */
  function Prepare(data: StorageData, host: string, accountId: Option<string>): Prepared
  {
    var found := FindConfig(data.domainConfigs, host);
    if found.None? then Refused(ConfigNotFound)
    else
      var config := found.value;
      var chosen := ChooseAccount(data.accounts, config.id, accountId);
      if chosen.None? || !chosen.value.autoFill then Refused(AccountUnavailable)
      else if |config.selectors| == 0 then Refused(NoSelectors)
      else if |chosen.value.selectorValues| == 0 then Refused(NoSelectorValues)
      else Ready(config, chosen.value)
  }

  /**
   * A pass that gets past the checks uses the first configuration matching
   * the host and an account that configuration owns, with auto-fill enabled,
   * with at least one selector and one selector value; it is the requested
   * account when a truthy `accountId` was given and the default otherwise.
   */
  lemma PrepareSound(data: StorageData, host: string, accountId: Option<string>)
    ensures var r := Prepare(data, host, accountId);
      && (r.Refused? ==> r.reason != NothingFilled)
      && (r == Refused(ConfigNotFound) <==> FindConfig(data.domainConfigs, host).None?)
      && (r.Ready? ==>
            && FindConfig(data.domainConfigs, host) == Some(r.config)
            && r.account in data.accounts && OwnedBy(r.account, r.config.id) && r.account.autoFill
            && |r.config.selectors| > 0 && |r.account.selectorValues| > 0
            && (Truthy(accountId) ==> r.account.id == accountId.value)
            && (!Truthy(accountId) ==> DefaultAccountOf(data.accounts, r.config.id) == Some(r.account)))
  {
    var found := FindConfig(data.domainConfigs, host);
    if found.Some? {
      ChooseAccountSpec(data.accounts, found.value.id, accountId);
      DefaultAccountSpec(data.accounts, found.value.id);
    }
  }

  /**
   * The reason reported is the first check that fails: a missing account
   * outranks missing selectors, which outrank missing values, whether or not
   * an `accountId` was given.
   */
  lemma PrepareOrder(data: StorageData, host: string, accountId: Option<string>)
    ensures var found := FindConfig(data.domainConfigs, host);
      var r := Prepare(data, host, accountId);
      found.Some? ==>
        var chosen := ChooseAccount(data.accounts, found.value.id, accountId);
        var usable := chosen.Some? && chosen.value.autoFill;
        && (r == Refused(AccountUnavailable) <==> !usable)
        && (r == Refused(NoSelectors) <==> usable && |found.value.selectors| == 0)
        && (r == Refused(NoSelectorValues) <==>
              usable && |found.value.selectors| > 0 && |chosen.value.selectorValues| == 0)
  {
  }

  // ---------------------------------------------------------------------------
  // The selector loop

  /** One `fillInput(target, value)` call of a pass. */
  datatype Write = Write(target: PageElement, value: string)

  /** `account.selectorValues[selector.id]` when it is truthy. */
  function ValueFor(values: map<string, string>, sel: SelectorItem): Option<string>
  {
    if sel.id in values && values[sel.id] != "" then Some(values[sel.id]) else None
  }

  /** What the loop does for one selector: skip, or fill the element it resolves to. */
  function Step(sel: SelectorItem, values: map<string, string>, page: Page): seq<Write>
  {
    var v := ValueFor(values, sel);
    if v.None? then []
    else
      var input := FindInputElement(page, sel.selector, sel.selectorType);
      if input.None? then [] else [Write(input.value, v.value)]
  }

  /** A selector with a truthy value whose locator resolves to a fillable element. */
  predicate Fillable(sel: SelectorItem, values: map<string, string>, page: Page)
  {
    ValueFor(values, sel).Some? && FindInputElement(page, sel.selector, sel.selectorType).Some?
  }

  function FillableIn(values: map<string, string>, page: Page): SelectorItem -> bool
  {
    (sel: SelectorItem) => Fillable(sel, values, page)
  }

  /** The fills a pass performs, in selector order. */
  function Plan(sels: seq<SelectorItem>, values: map<string, string>, page: Page): (ws: seq<Write>)
    ensures |ws| <= |sels|
  {
    if sels == [] then []
    else Plan(sels[..|sels| - 1], values, page) + Step(sels[|sels| - 1], values, page)
  }

  lemma PlanSnoc(sels: seq<SelectorItem>, i: nat, values: map<string, string>, page: Page)
    requires i < |sels|
    ensures Plan(sels[..i + 1], values, page) == Plan(sels[..i], values, page) + Step(sels[i], values, page)
  {
    assert sels[..i + 1][..i] == sels[..i];
  }

  /** Skipping a selector never ends the loop: the fills of a list are the fills of its parts. */
  lemma {:induction false} PlanConcat(a: seq<SelectorItem>, b: seq<SelectorItem>, values: map<string, string>, page: Page)
    ensures Plan(a + b, values, page) == Plan(a, values, page) + Plan(b, values, page)
    decreases |b|
  {
    if b == [] {
      assert a + b == a;
    } else {
      var n := |b| - 1;
      assert (a + b)[..|a + b| - 1] == a + b[..n];
      assert (a + b)[|a + b| - 1] == b[n];
      PlanConcat(a, b[..n], values, page);
      assert Plan(a + b, values, page) == Plan(a + b[..n], values, page) + Step(b[n], values, page);
      assert Plan(b, values, page) == Plan(b[..n], values, page) + Step(b[n], values, page);
    }
  }

  /** `filledCount` counts exactly the fillable selectors. */
  lemma {:induction false} PlanCount(sels: seq<SelectorItem>, values: map<string, string>, page: Page)
    ensures |Plan(sels, values, page)| == |Filter(sels, FillableIn(values, page))|
  {
    if sels != [] {
      var n := |sels| - 1;
      PlanCount(sels[..n], values, page);
      assert sels == sels[..n] + [sels[n]];
      FilterConcat(sels[..n], [sels[n]], FillableIn(values, page));
    }
  }

  /** A pass fills nothing exactly when no selector is fillable. */
  lemma {:induction false} PlanEmpty(sels: seq<SelectorItem>, values: map<string, string>, page: Page)
    ensures Plan(sels, values, page) == [] <==> forall i :: 0 <= i < |sels| ==> !Fillable(sels[i], values, page)
  {
    if sels != [] {
      var n := |sels| - 1;
      var init := Plan(sels[..n], values, page);
      var step := Step(sels[n], values, page);
      PlanEmpty(sels[..n], values, page);
      assert Plan(sels, values, page) == init + step;
      assert |init + step| == |init| + |step|;
      assert step == [] <==> !Fillable(sels[n], values, page);
      if init == [] && step == [] {
        forall i | 0 <= i < |sels|
          ensures !Fillable(sels[i], values, page)
        {
          if i < n {
            assert sels[..n][i] == sels[i];
          }
        }
      }
      if forall i :: 0 <= i < |sels| ==> !Fillable(sels[i], values, page) {
        forall i | 0 <= i < n
          ensures !Fillable(sels[..n][i], values, page)
        {
          assert sels[..n][i] == sels[i];
        }
      }
    }
  }

  /** Every write puts a non-empty value into a fillable element of the page. */
  predicate IntoFillable(ws: seq<Write>, page: Page)
  {
    forall j :: 0 <= j < |ws| ==> ws[j].target in ElementsOf(page) && Accepted(ws[j].target) && ws[j].value != ""
  }

  /** Every fill of a pass writes a non-empty value into a fillable element of the page. */
  lemma {:induction false} PlanTargets(sels: seq<SelectorItem>, values: map<string, string>, page: Page)
    ensures IntoFillable(Plan(sels, values, page), page)
  {
    if sels != [] {
      var n := |sels| - 1;
      PlanTargets(sels[..n], values, page);
      var a := Plan(sels[..n], values, page);
      var b := Step(sels[n], values, page);
      assert IntoFillable(b, page);
      var ws: seq<Write> := a + b;
      forall j | 0 <= j < |ws|
        ensures ws[j].target in ElementsOf(page) && Accepted(ws[j].target) && ws[j].value != ""
      {
        if j < |a| {
          assert ws[j] == a[j];
        } else {
          assert ws[j] == b[j - |a|];
        }
      }
    }
  }

  /** The fills of a pass whose checks came out as `p`: none unless every check passed. */
  function PreparedWrites(p: Prepared, page: Page): seq<Write>
  {
    match p
    case Refused(_) => []
    case Ready(config, account) => Plan(config.selectors, account.selectorValues, page)
  }

  /**
   * The result `autoFill` reports for a pass whose checks came out as `p`:
   * the refusal, or the number of fills out of the number of selectors.
   */
  function PreparedResult(p: Prepared, page: Page): FillResult
  {
    match p
    case Refused(reason) => Failed(reason)
    case Ready(config, account) =>
      var n := |Plan(config.selectors, account.selectorValues, page)|;
      if n > 0 then Filled(n, |config.selectors|) else Failed(NothingFilled)
  }

  /**
   * The accounting at the end of `autoFill`: success exactly when something
   * was filled, with `filledCount` fills out of `totalSelectors` selectors.
   */
  lemma PreparedAccounting(p: Prepared, page: Page)
    ensures var r := PreparedResult(p, page);
      && (Succeeded(r) <==> PreparedWrites(p, page) != [])
      && (r.Filled? ==>
            && p.Ready?
            && r.filledCount == |PreparedWrites(p, page)|
            && r.totalSelectors == |p.config.selectors|
            && 0 < r.filledCount <= r.totalSelectors)
      && (r.Failed? && r.reason != NothingFilled ==> p == Refused(r.reason))
      && (p.Ready? && r.Failed? ==> r.reason == NothingFilled && PreparedWrites(p, page) == [])
  {
  }

  function PassWrites(data: StorageData, host: string, accountId: Option<string>, page: Page): seq<Write>
  {
    PreparedWrites(Prepare(data, host, accountId), page)
  }

  /** The result of `autoFill(accountId)` on page `page` with the store holding `data`. */
  function PassResult(data: StorageData, host: string, accountId: Option<string>, page: Page): FillResult
  {
    PreparedResult(Prepare(data, host, accountId), page)
  }

  /**
   * Pass accounting: `0 < filledCount <= totalSelectors == |selectors|` of the
   * configuration for the host, `filledCount` being the number of fillable
   * selectors; a refused pass fills nothing.
   */
  lemma PassAccounting(data: StorageData, host: string, accountId: Option<string>, page: Page)
    ensures var r := PassResult(data, host, accountId, page);
      var p := Prepare(data, host, accountId);
      && (r.Filled? ==>
            && p.Ready? && FindConfig(data.domainConfigs, host) == Some(p.config)
            && r.filledCount == |Filter(p.config.selectors, FillableIn(p.account.selectorValues, page))|
            && r.totalSelectors == |p.config.selectors|
            && 0 < r.filledCount <= r.totalSelectors)
      && (p.Refused? ==> r == Failed(p.reason) && PassWrites(data, host, accountId, page) == [])
  {
    var p := Prepare(data, host, accountId);
    PrepareSound(data, host, accountId);
    PreparedAccounting(p, page);
    if p.Ready? {
      PlanCount(p.config.selectors, p.account.selectorValues, page);
    }
  }

  /** A pass succeeds exactly when some selector of the chosen configuration is fillable. */
  lemma PassSucceedsIff(data: StorageData, host: string, accountId: Option<string>, page: Page)
    ensures Succeeded(PassResult(data, host, accountId, page)) <==>
      var p := Prepare(data, host, accountId);
      p.Ready? && exists i :: 0 <= i < |p.config.selectors| && Fillable(p.config.selectors[i], p.account.selectorValues, page)
  {
    var p := Prepare(data, host, accountId);
    PreparedAccounting(p, page);
    if p.Ready? {
      PlanEmpty(p.config.selectors, p.account.selectorValues, page);
    }
  }

  // ---------------------------------------------------------------------------
  // Element states after a sequence of fills

  /** The state of `e` after the writes `ws`, applied in order, starting from `s`. */
  function Replay(s: FieldState, e: PageElement, ws: seq<Write>, nativeSetter: bool): FieldState
  {
    if ws == [] then s
    else
      var t := Replay(s, e, ws[..|ws| - 1], nativeSetter);
      var w := ws[|ws| - 1];
      if w.target == e then FillEffect(e.tagName, e.contentEditable, t, w.value, nativeSetter) else t
  }

  lemma ReplaySnoc(s: FieldState, e: PageElement, ws: seq<Write>, w: Write, nativeSetter: bool)
    ensures Replay(s, e, ws + [w], nativeSetter) ==
      var t := Replay(s, e, ws, nativeSetter);
      if w.target == e then FillEffect(e.tagName, e.contentEditable, t, w.value, nativeSetter) else t
  {
    assert (ws + [w])[..|ws|] == ws;
  }

  lemma {:induction false} ReplayConcat(s: FieldState, e: PageElement, a: seq<Write>, b: seq<Write>, nativeSetter: bool)
    ensures Replay(s, e, a + b, nativeSetter) == Replay(Replay(s, e, a, nativeSetter), e, b, nativeSetter)
    decreases |b|
  {
    if b == [] {
      assert a + b == a;
    } else {
      var n := |b| - 1;
      assert (a + b)[..|a + b| - 1] == a + b[..n];
      assert (a + b)[|a + b| - 1] == b[n];
      ReplayConcat(s, e, a, b[..n], nativeSetter);
    }
  }

  /** An element no write targets keeps its state: a pass touches only what it fills. */
  lemma {:induction false} ReplayUntouched(s: FieldState, e: PageElement, ws: seq<Write>, nativeSetter: bool)
    requires forall i :: 0 <= i < |ws| ==> ws[i].target != e
    ensures Replay(s, e, ws, nativeSetter) == s
  {
    if ws != [] {
      ReplayUntouched(s, e, ws[..|ws| - 1], nativeSetter);
    }
  }

  /**
   * When several selectors resolve to the same text control, the value it
   * ends with is the one of the last of them, and the earlier event log is kept.
   */
  lemma {:induction false} LastWriteWins(s: FieldState, e: PageElement, ws: seq<Write>, nativeSetter: bool, k: nat)
    requires IsTextControl(e.tagName)
    requires k < |ws| && ws[k].target == e
    requires forall j :: k < j < |ws| ==> ws[j].target != e
    ensures Replay(s, e, ws, nativeSetter).value == ws[k].value
    ensures s.events < Replay(s, e, ws, nativeSetter).events
  {
    var n := |ws| - 1;
    if k < n {
      LastWriteWins(s, e, ws[..n], nativeSetter, k);
    } else {
      ReplayGrows(s, e, ws[..n], nativeSetter);
    }
  }

  /** Fills only ever append to an element's event log. */
  lemma {:induction false} ReplayGrows(s: FieldState, e: PageElement, ws: seq<Write>, nativeSetter: bool)
    ensures s.events <= Replay(s, e, ws, nativeSetter).events
  {
    if ws != [] {
      ReplayGrows(s, e, ws[..|ws| - 1], nativeSetter);
    }
  }

  /**
   * `autoFill`: the checks, then one `fillInput` per fillable selector in
   * configured order, then the accounting. Elements are filled in place.
   */
  method AutoFill(store: Store, host: string, accountId: Option<string>, page: Page, nativeSetter: bool)
    returns (r: FillResult)
    modifies ElementsOf(page)
    ensures r == PassResult(store.Snapshot(), host, accountId, page)
    ensures forall e :: e in ElementsOf(page) ==>
      e.State() == Replay(old(e.State()), e, PassWrites(store.Snapshot(), host, accountId, page), nativeSetter)
  {
    var p := CheckPreconditions(store, host, accountId);
    if p.Refused? {
      return Failed(p.reason);
    }
    var filledCount := FillSelectors(p.config.selectors, p.account.selectorValues, page, nativeSetter);
    var totalSelectors := |p.config.selectors|;
    if filledCount > 0 {
      r := Filled(filledCount, totalSelectors);
    } else {
      r := Failed(NothingFilled);
    }
  }

  /** The early returns of `autoFill`, in the order it makes them. */
  method CheckPreconditions(store: Store, host: string, accountId: Option<string>) returns (p: Prepared)
    ensures p == Prepare(store.Snapshot(), host, accountId)
  {
    var domainConfig := store.FindDomainConfigByDomain(host);
    if domainConfig.None? {
      return Refused(ConfigNotFound);
    }
    var config := domainConfig.value;
    var account: Option<Account>;
    if accountId.Some? && accountId.value != "" {
      var accounts := store.GetAccountsByDomainConfigId(config.id);
      account := FindAccount(accounts, accountId.value);
    } else {
      account := store.GetDefaultAccount(config.id);
    }
    if account.None? || !account.value.autoFill {
      return Refused(AccountUnavailable);
    }
    if |config.selectors| == 0 {
      return Refused(NoSelectors);
    }
    if |account.value.selectorValues| == 0 {
      return Refused(NoSelectorValues);
    }
    p := Ready(config, account.value);
  }

  /**
   * The `for (const selector of domainConfig.selectors)` loop: in configured
   * order, skip a selector without a truthy value or without a fillable
   * element, otherwise fill it and count it.
   */
  method FillSelectors(selectors: seq<SelectorItem>, values: map<string, string>, page: Page, nativeSetter: bool)
    returns (filledCount: nat)
    modifies ElementsOf(page)
    ensures filledCount == |Plan(selectors, values, page)|
    ensures forall e :: e in ElementsOf(page) ==>
      e.State() == Replay(old(e.State()), e, Plan(selectors, values, page), nativeSetter)
  {
    filledCount := 0;
    ghost var done: seq<Write> := [];
    for i := 0 to |selectors|
      invariant done == Plan(selectors[..i], values, page)
      invariant filledCount == |done|
      invariant forall e :: e in ElementsOf(page) ==> e.State() == Replay(old(e.State()), e, done, nativeSetter)
    {
      PlanSnoc(selectors, i, values, page);
      ghost var step := Step(selectors[i], values, page);
      label before:
      var filled := FillSelector(selectors[i], values, page, nativeSetter);
      if filled {
        filledCount := filledCount + 1;
      }
      forall e | e in ElementsOf(page)
        ensures e.State() == Replay(old(e.State()), e, done + step, nativeSetter)
      {
        ReplayConcat(old(e.State()), e, done, step, nativeSetter);
      }
      done := done + step;
    }
    assert selectors[..|selectors|] == selectors;
  }

  /** The body of the selector loop: fill the element `selector` resolves to when it has a value. */
  method FillSelector(selector: SelectorItem, values: map<string, string>, page: Page, nativeSetter: bool)
    returns (filled: bool)
    modifies ElementsOf(page)
    ensures |Step(selector, values, page)| == if filled then 1 else 0
    ensures forall e :: e in ElementsOf(page) ==>
      e.State() == Replay(old(e.State()), e, Step(selector, values, page), nativeSetter)
  {
    filled := false;
    if selector.id in values && values[selector.id] != "" {
      var value := values[selector.id];
      var input := FindInputElement(page, selector.selector, selector.selectorType);
      if input.Some? {
        FillInput(input.value, value, nativeSetter);
        filled := true;
        assert Step(selector, values, page) == [] + [Write(input.value, value)];
      }
    }
  }

  // ---------------------------------------------------------------------------
  // autoFillWithRetry

  // The checks of `autoFill` read only the store, which no pass changes, so
  // every pass of one retry sequence comes out of the same `Prepared` value;
  // the functions below are stated over that value.

  /** Pass `k`, which sees page `views(k)`, fills nothing. */
  predicate PassFails(p: Prepared, views: nat -> Page, k: nat)
  {
    !Succeeded(PreparedResult(p, views(k)))
  }

  /** Passes `0 .. n-1` all fail. */
  predicate AllFail(p: Prepared, views: nat -> Page, n: nat)
  {
    n == 0 || (AllFail(p, views, n - 1) && PassFails(p, views, n - 1))
  }

  lemma {:induction false} AllFailEach(p: Prepared, views: nat -> Page, n: nat)
    requires AllFail(p, views, n)
    ensures forall k: nat :: k < n ==> PassFails(p, views, k) && PreparedWrites(p, views(k)) == []
  {
    if n > 0 {
      AllFailEach(p, views, n - 1);
      PreparedAccounting(p, views(n - 1));
    }
  }

  /** A refused pass fails whatever the page, so a refusal makes every pass fail. */
  lemma {:induction false} RefusedAllFail(reason: FailReason, views: nat -> Page, n: nat)
    ensures AllFail(Refused(reason), views, n)
  {
    if n > 0 {
      RefusedAllFail(reason, views, n - 1);
    }
  }

  /**
   * `autoFillWithRetry(accountId, retries)`: up to `retries` passes, returning
   * the first that fills a field, sleeping `delay` after every failed pass but
   * the last of these; when none succeeds, one final pass whose result is
   * returned whatever it is. Pass `k` sees the page `views(k)`, and `universe`
   * holds every element any of these pages resolves to. `sleeps` counts the
   * waits of `delay` milliseconds. A failed pass fills nothing, so the
   * elements end as the pass whose result is returned leaves them.
   */
  method AutoFillWithRetry(store: Store, host: string, accountId: Option<string>,
                           views: nat -> Page, universe: set<PageElement>, retries: int, nativeSetter: bool)
    returns (r: FillResult, passes: nat, sleeps: nat, ghost last: nat)
    requires forall k: nat :: ElementsOf(views(k)) <= universe
    modifies universe
    ensures store.Snapshot() == old(store.Snapshot())
    ensures passes == last + 1
    ensures r == PassResult(store.Snapshot(), host, accountId, views(last))
    ensures AllFail(Prepare(store.Snapshot(), host, accountId), views, last)
    ensures passes <= retries ==> Succeeded(r) && sleeps == passes - 1
    ensures passes > retries ==>
      passes == (if retries > 0 then retries else 0) + 1 && sleeps == (if retries > 1 then retries - 1 else 0)
    ensures forall e :: e in universe ==>
      e.State() == Replay(old(e.State()), e, PassWrites(store.Snapshot(), host, accountId, views(last)), nativeSetter)
  {
    ghost var p := Prepare(store.Snapshot(), host, accountId);
    sleeps := 0;
    var i := 0;
    while i < retries
      invariant 0 <= i && (i <= retries || i == 0)
      invariant sleeps == (if i == retries && i > 0 then i - 1 else i)
      invariant p == Prepare(store.Snapshot(), host, accountId)
      invariant AllFail(p, views, i)
      invariant forall e :: e in universe ==> e.State() == old(e.State())
    {
      r := TrackedPass(store, host, accountId, views(i), universe, p, nativeSetter);
      if Succeeded(r) {
        return r, i + 1, sleeps, i;
      }
      if i < retries - 1 {
        sleeps := sleeps + 1;
      }
      i := i + 1;
    }
    r := TrackedPass(store, host, accountId, views(i), universe, p, nativeSetter);
    last := i;
    passes := i + 1;
  }

  /**
   * One pass of a retry sequence whose checks come out as `p`: the elements
   * of `universe` end as the replay of that pass's fills, and a failed pass
   * leaves them all as they were.
   */
  method TrackedPass(store: Store, host: string, accountId: Option<string>, page: Page,
                     universe: set<PageElement>, ghost p: Prepared, nativeSetter: bool)
    returns (result: FillResult)
    requires p == Prepare(store.Snapshot(), host, accountId)
    requires ElementsOf(page) <= universe
    modifies universe
    ensures store.Snapshot() == old(store.Snapshot())
    ensures result == PreparedResult(p, page)
    ensures forall e :: e in universe ==> e.State() == Replay(old(e.State()), e, PreparedWrites(p, page), nativeSetter)
    ensures !Succeeded(result) ==> forall e :: e in universe ==> e.State() == old(e.State())
  {
    ghost var ws := PreparedWrites(p, page);
    result := AutoFill(store, host, accountId, page, nativeSetter);
    forall e | e in universe
      ensures e.State() == Replay(old(e.State()), e, ws, nativeSetter)
    {
      if e !in ElementsOf(page) {
        PreparedWritesTargets(p, page);
        ReplayUntouched(old(e.State()), e, ws, nativeSetter);
      }
    }
    PreparedAccounting(p, page);
  }

  /** Every fill of a pass targets an element of the page that pass sees. */
  lemma PreparedWritesTargets(p: Prepared, page: Page)
    ensures IntoFillable(PreparedWrites(p, page), page)
  {
    if p.Ready? {
      PlanTargets(p.config.selectors, p.account.selectorValues, page);
    }
  }

  // ---------------------------------------------------------------------------
  // The mutation-observer gate

  /** No automatic pass is scheduled less than this many milliseconds after the last one. */
  const FILL_INTERVAL: int := 3000

  /** The page-level flags `hasFilled` and `lastFillTime`. */
  datatype GateState = GateState(hasFilled: bool, lastFillTime: int)

  const InitialGate := GateState(false, 0)

  /**
   * The observer callback at clock reading `now`: the new flags, and whether a
   * pass was scheduled (it runs 1000 ms later).
   */
  function Observe(g: GateState, now: int): (r: (GateState, bool))
    ensures g.hasFilled ==> r == (g, false)
    ensures !g.hasFilled ==>
      && (r.1 <==> now - g.lastFillTime > FILL_INTERVAL)
      && r.0 == (if r.1 then g.(lastFillTime := now) else g)
  {
    if g.hasFilled then (g, false)
    else if now - g.lastFillTime > FILL_INTERVAL then (g.(lastFillTime := now), true)
    else (g, false)
  }

  /** A finished automatic pass (initial or scheduled) raises `hasFilled` when it succeeded. */
  function AfterPass(g: GateState, result: FillResult): (r: GateState)
    ensures r.hasFilled <==> g.hasFilled || Succeeded(result)
    ensures r.lastFillTime == g.lastFillTime
  {
    if Succeeded(result) then g.(hasFilled := true) else g
  }

  /** What the page-level flags react to. */
  datatype GateEvent = Mutation(now: int) | PassFinished(result: FillResult)

  function Run(g: GateState, evs: seq<GateEvent>): GateState
  {
    if evs == [] then g
    else
      var h := Run(g, evs[..|evs| - 1]);
      match evs[|evs| - 1]
      case Mutation(now) => Observe(h, now).0
      case PassFinished(result) => AfterPass(h, result)
  }

  /** The clock readings at which a pass was scheduled, in order. */
  function Scheduled(g: GateState, evs: seq<GateEvent>): seq<int>
  {
    if evs == [] then []
    else
      var h := Run(g, evs[..|evs| - 1]);
      Scheduled(g, evs[..|evs| - 1]) +
        match evs[|evs| - 1]
        case Mutation(now) => if Observe(h, now).1 then [now] else []
        case PassFinished(_) => []
  }

  predicate SomeSuccess(evs: seq<GateEvent>)
  {
    exists i :: 0 <= i < |evs| && evs[i].PassFinished? && Succeeded(evs[i].result)
  }

  /** `hasFilled` is raised exactly by a successful pass, and is never lowered. */
  lemma {:induction false} RunHasFilled(g: GateState, evs: seq<GateEvent>)
    ensures Run(g, evs).hasFilled <==> g.hasFilled || SomeSuccess(evs)
  {
    if evs != [] {
      var n := |evs| - 1;
      RunHasFilled(g, evs[..n]);
      assert forall i :: 0 <= i < n ==> evs[..n][i] == evs[i];
      if SomeSuccess(evs[..n]) {
        var i :| 0 <= i < n && evs[..n][i].PassFinished? && Succeeded(evs[..n][i].result);
        assert evs[i] == evs[..n][i];
      }
    }
  }

  /** Once `hasFilled` holds, mutations schedule nothing and the flags never change again. */
  lemma {:induction false} FilledIsFinal(g: GateState, evs: seq<GateEvent>)
    requires g.hasFilled
    ensures Run(g, evs) == g && Scheduled(g, evs) == []
  {
    if evs != [] {
      FilledIsFinal(g, evs[..|evs| - 1]);
    }
  }

  /** The flags and schedule after `a + b` are those after `b` started from the state after `a`. */
  lemma {:induction false} RunConcat(g: GateState, a: seq<GateEvent>, b: seq<GateEvent>)
    ensures Run(g, a + b) == Run(Run(g, a), b)
    ensures Scheduled(g, a + b) == Scheduled(g, a) + Scheduled(Run(g, a), b)
    decreases |b|
  {
    if b == [] {
      assert a + b == a;
    } else {
      var n := |b| - 1;
      assert (a + b)[..|a + b| - 1] == a + b[..n];
      assert (a + b)[|a + b| - 1] == b[n];
      RunConcat(g, a, b[..n]);
    }
  }

  /**
   * Single success: after a successful pass has been reported, no further
   * mutation schedules a pass, whatever happens next.
   */
  lemma NoScheduleAfterSuccess(g: GateState, a: seq<GateEvent>, b: seq<GateEvent>)
    requires SomeSuccess(a)
    ensures Scheduled(g, a + b) == Scheduled(g, a)
  {
    RunHasFilled(g, a);
    RunConcat(g, a, b);
    FilledIsFinal(Run(g, a), b);
  }

  /** The event `e` seen in state `h`: the new flags, and the clock reading scheduled, if any. */
  function React(h: GateState, e: GateEvent): (GateState, seq<int>)
  {
    match e
    case Mutation(now) => var o := Observe(h, now); (o.0, if o.1 then [now] else [])
    case PassFinished(result) => (AfterPass(h, result), [])
  }

  lemma RunSnoc(g: GateState, evs: seq<GateEvent>)
    requires evs != []
    ensures var n := |evs| - 1;
      var o := React(Run(g, evs[..n]), evs[n]);
      Run(g, evs) == o.0 && Scheduled(g, evs) == Scheduled(g, evs[..n]) + o.1
  {
  }

  /** `lastFillTime` is the latest clock reading at which a pass was scheduled. */
  lemma {:induction false} ScheduledLast(g: GateState, evs: seq<GateEvent>)
    ensures var ts := Scheduled(g, evs);
      Run(g, evs).lastFillTime == if ts == [] then g.lastFillTime else ts[|ts| - 1]
  {
    if evs != [] {
      var n := |evs| - 1;
      ScheduledLast(g, evs[..n]);
      RunSnoc(g, evs);
      var o := React(Run(g, evs[..n]), evs[n]);
      if o.1 == [] {
        assert Scheduled(g, evs) == Scheduled(g, evs[..n]);
      }
    }
  }

  /**
   * Cooldown: scheduled passes are more than `FILL_INTERVAL` apart, and the
   * first lies more than `FILL_INTERVAL` after the initial `lastFillTime`.
   */
  lemma {:induction false} ScheduledSpaced(g: GateState, evs: seq<GateEvent>)
    ensures var ts := Scheduled(g, evs);
      && (forall i :: 0 < i < |ts| ==> ts[i] - ts[i - 1] > FILL_INTERVAL)
      && (ts != [] ==> ts[0] - g.lastFillTime > FILL_INTERVAL)
  {
    if evs != [] {
      var n := |evs| - 1;
      ScheduledSpaced(g, evs[..n]);
      ScheduledLast(g, evs[..n]);
      RunSnoc(g, evs);
      var h := Run(g, evs[..n]);
      var o := React(h, evs[n]);
      if o.1 != [] {
        var now := evs[n].now;
        assert o.1 == [now] && now - h.lastFillTime > FILL_INTERVAL;
        SpacedSnoc(Scheduled(g, evs[..n]), now, g.lastFillTime);
      }
    }
  }

  /** Appending a reading later than the spacing after the last keeps the sequence spaced. */
  lemma SpacedSnoc(ts: seq<int>, t: int, start: int)
    requires forall i :: 0 < i < |ts| ==> ts[i] - ts[i - 1] > FILL_INTERVAL
    requires ts != [] ==> ts[0] - start > FILL_INTERVAL
    requires t - (if ts == [] then start else ts[|ts| - 1]) > FILL_INTERVAL
    ensures var us := ts + [t];
      && (forall i :: 0 < i < |us| ==> us[i] - us[i - 1] > FILL_INTERVAL)
      && us[0] - start > FILL_INTERVAL
  {
    var us := ts + [t];
    forall i | 0 < i < |us|
      ensures us[i] - us[i - 1] > FILL_INTERVAL
    {
      if i < |ts| {
        assert us[i] == ts[i] && us[i - 1] == ts[i - 1];
      }
    }
  }

  // ---------------------------------------------------------------------------
  // The content script's page-level state

  class ContentScript {
    var hasFilled: bool
    var lastFillTime: int

    /** Script load: nothing filled, no pass ever triggered. */
    constructor ()
      ensures Gate() == InitialGate
    {
      hasFilled := false;
      lastFillTime := 0;
    }

    function Gate(): GateState
      reads this
    {
      GateState(hasFilled, lastFillTime)
    }

    /** The `MutationObserver` callback; `scheduled` says whether a pass was queued. */
    method OnMutation(now: int) returns (scheduled: bool)
      modifies this
      ensures (Gate(), scheduled) == Observe(old(Gate()), now)
    {
      scheduled := false;
      if hasFilled {
        return;
      }
      if now - lastFillTime > FILL_INTERVAL {
        lastFillTime := now;
        scheduled := true;
      }
    }

    /**
     * The queued pass, when its timer fires: a default-account pass whose
     * success raises `hasFilled`. It does not look at `hasFilled` first.
     */
    method RunScheduledPass(store: Store, host: string, page: Page, nativeSetter: bool) returns (r: FillResult)
      modifies this, ElementsOf(page)
      ensures r == PassResult(store.Snapshot(), host, None, page)
      ensures Gate() == AfterPass(old(Gate()), r)
      ensures forall e :: e in ElementsOf(page) ==>
        e.State() == Replay(old(e.State()), e, PassWrites(store.Snapshot(), host, None, page), nativeSetter)
    {
      r := AutoFill(store, host, None, page, nativeSetter);
      if r.Filled? && r.filledCount > 0 {
        hasFilled := true;
      }
    }

    /**
     * `initAutoFill`, after the wait for the document and the settle delay:
     * `autoFillWithRetry()` with its defaults (3 retries, 500 ms), then
     * `hasFilled` on success.
     */
    method InitAutoFill(store: Store, host: string, views: nat -> Page, universe: set<PageElement>, nativeSetter: bool)
      returns (r: FillResult, passes: nat, sleeps: nat, ghost last: nat)
      requires forall k: nat :: ElementsOf(views(k)) <= universe
      modifies this, universe
      ensures passes == last + 1 <= 4
      ensures r == PassResult(store.Snapshot(), host, None, views(last))
      ensures AllFail(Prepare(store.Snapshot(), host, None), views, last)
      ensures !Succeeded(r) ==> passes == 4 && sleeps == 2
      ensures Gate() == AfterPass(old(Gate()), r)
      ensures forall e :: e in universe ==>
        e.State() == Replay(old(e.State()), e, PassWrites(store.Snapshot(), host, None, views(last)), nativeSetter)
    {
      r, passes, sleeps, last := AutoFillWithRetry(store, host, None, views, universe, 3, nativeSetter);
      if r.Filled? && r.filledCount > 0 {
        hasFilled := true;
      }
    }

    /**
     * The `{action: "fill", accountId}` message: exactly one pass, for the
     * given or the default account, reported as is; the flags are left alone.
     */
    method HandleFillMessage(store: Store, host: string, accountId: Option<string>, page: Page, nativeSetter: bool)
      returns (r: FillResult)
      modifies ElementsOf(page)
      ensures r == PassResult(store.Snapshot(), host, accountId, page)
      ensures Gate() == old(Gate())
      ensures forall e :: e in ElementsOf(page) ==>
        e.State() == Replay(old(e.State()), e, PassWrites(store.Snapshot(), host, accountId, page), nativeSetter)
    {
      r := AutoFill(store, host, accountId, page, nativeSetter);
    }
  }
}
