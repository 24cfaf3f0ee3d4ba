/**
 * The configuration store of utils/storage.ts. The whole state is one blob
 * `{domainConfigs, accounts}` under a fixed key; every mutating operation reads
 * the blob, changes its copy and writes the whole blob back. The key-value
 * backend is modelled as the field `stored` (None while nothing was ever
 * written); its asynchrony and races between writers are not modelled.
 */
module Storage {
  import opened Types
  import opened Seqs
  import opened Strings
  import opened DomainMatch

  // ---------------------------------------------------------------------------
  // Ownership by id prefix

  /** An account belongs to a configuration when its id starts with `configId + "-"`. */
  predicate OwnedBy(a: Account, configId: string)
  {
    configId + "-" <= a.id
  }

  function Owned(configId: string): Account -> bool
  {
    (a: Account) => OwnedBy(a, configId)
  }

  /** `getAccountsByDomainConfigId`: the owned accounts, in storage order. */
  function AccountsOf(accounts: seq<Account>, configId: string): (r: seq<Account>)
    ensures forall a :: a in r <==> a in accounts && OwnedBy(a, configId)
  {
    Filter(accounts, Owned(configId))
  }

  /** Ownership filtering keeps storage order: it distributes over concatenation. */
  lemma AccountsOfConcat(xs: seq<Account>, ys: seq<Account>, configId: string)
    ensures AccountsOf(xs + ys, configId) == AccountsOf(xs, configId) + AccountsOf(ys, configId)
  {
    FilterConcat(xs, ys, Owned(configId));
  }

  // ---------------------------------------------------------------------------
  // Upsert with timestamps

  /** `saveDomainConfig`'s list update: replace in place with `updatedAt = now`, or append. */
  function UpsertConfig(configs: seq<DomainConfig>, c: DomainConfig, now: int): seq<DomainConfig>
  {
    Upsert(configs, ConfigId, c.id, c.(updatedAt := now), c.(createdAt := now, updatedAt := now))
  }

  function UpsertAccount(accounts: seq<Account>, a: Account, now: int): seq<Account>
  {
    Upsert(accounts, AccountId, a.id, a.(updatedAt := now), a.(createdAt := now, updatedAt := now))
  }

  /**
   * Saving a configuration whose id is stored replaces the first such entry at
   * its index, stamped `updatedAt = now`, and keeps the length; a new id is
   * appended with both stamps `now`.
   */
  lemma UpsertConfigShape(configs: seq<DomainConfig>, c: DomainConfig, now: int)
    ensures var r := UpsertConfig(configs, c, now);
      var i := IndexOf(configs, ConfigId, c.id);
      && (0 <= i ==> |r| == |configs| && r[i] == c.(updatedAt := now)
                     && forall j :: 0 <= j < |r| && j != i ==> r[j] == configs[j])
      && ((forall j :: 0 <= j < |configs| ==> configs[j].id != c.id) ==>
            r == configs + [c.(createdAt := now, updatedAt := now)])
  {
  }

  /** After saving, the configuration's id is present, and exactly once if it was at most once. */
  lemma UpsertConfigOnce(configs: seq<DomainConfig>, c: DomainConfig, now: int)
    requires CountKey(configs, ConfigId, c.id) <= 1
    ensures CountKey(UpsertConfig(configs, c, now), ConfigId, c.id) == 1
  {
    UpsertCount(configs, ConfigId, c.id, c.(updatedAt := now), c.(createdAt := now, updatedAt := now));
  }

  // ---------------------------------------------------------------------------
  // The default sweep of saveAccount

  /**
   * The prefix `saveAccount` sweeps: `account.id.split("-")[0] + "-"`. For an
   * id `C + "-" + x` this is the first `-`-segment of `C`, so it is wider than
   * ownership by `C` whenever `C` itself contains a `-`.
   */
  function SweepScope(accountId: string): string
  {
    Split(accountId, '-')[0] + "-"
  }

  function Cleared(a: Account, scope: string, keepId: string): Account
  {
    if scope <= a.id && a.id != keepId then a.(isDefault := false) else a
  }

  /** The `forEach` of `saveAccount`: drop the default flag of every other account in scope. */
  function ClearOtherDefaults(accounts: seq<Account>, scope: string, keepId: string): (r: seq<Account>)
    ensures |r| == |accounts|
  {
    seq(|accounts|, i requires 0 <= i < |accounts| => Cleared(accounts[i], scope, keepId))
  }

  /** The account list `saveAccount` writes back. */
  function SavedAccounts(accounts: seq<Account>, a: Account, now: int): seq<Account>
  {
    var u := UpsertAccount(accounts, a, now);
    if a.isDefault then ClearOtherDefaults(u, SweepScope(a.id), a.id) else u
  }

  /** Index at which the saved account sits after `saveAccount`. */
  function SavedIndex(accounts: seq<Account>, a: Account): nat
  {
    var i := IndexOf(accounts, AccountId, a.id);
    if 0 <= i then i else |accounts|
  }

  /**
   * The whole effect of `saveAccount` on the list: the saved account sits at
   * its old index (or at the end) with its stamps; when it is a default, every
   * other entry whose id starts with the sweep scope loses the flag, and every
   * entry outside the scope, or carrying the saved id, is left as it was.
   */
  lemma {:induction false} SaveAccountEffect(accounts: seq<Account>, a: Account, now: int)
    ensures var r := SavedAccounts(accounts, a, now);
      var k := SavedIndex(accounts, a);
      var stamped := if k < |accounts| then a.(updatedAt := now) else a.(createdAt := now, updatedAt := now);
      && |r| == (if k < |accounts| then |accounts| else |accounts| + 1)
      && r[k] == stamped
      && (forall j :: 0 <= j < |accounts| && j != k ==>
            r[j] == (if a.isDefault then Cleared(accounts[j], SweepScope(a.id), a.id) else accounts[j]))
  {
    var u := UpsertAccount(accounts, a, now);
    var k := SavedIndex(accounts, a);
    assert forall j :: 0 <= j < |accounts| && j != k ==> u[j] == accounts[j];
    assert u[k].id == a.id;
  }

  /**
   * Saving a default account leaves it the only default among the accounts
   * in its sweep scope, itself included.
   */
  lemma SaveDefaultSweep(accounts: seq<Account>, a: Account, now: int)
    requires a.isDefault
    ensures var r := SavedAccounts(accounts, a, now);
      && r[SavedIndex(accounts, a)].isDefault
      && forall j :: 0 <= j < |r| && SweepScope(a.id) <= r[j].id && r[j].id != a.id ==> !r[j].isDefault
  {
    SaveAccountEffect(accounts, a, now);
  }

  /** The sweep never changes an id, so every id keeps its count. */
  lemma SavedAccountsKeepIds(accounts: seq<Account>, a: Account, now: int, id: string)
    ensures CountKey(SavedAccounts(accounts, a, now), AccountId, id) == CountKey(UpsertAccount(accounts, a, now), AccountId, id)
  {
    var u := UpsertAccount(accounts, a, now);
    if a.isDefault {
      CountKeySameKeys(ClearOtherDefaults(u, SweepScope(a.id), a.id), u, AccountId, AccountId, id);
    }
  }

  /** The saved account is present exactly once afterwards, when its id was at most once before. */
  lemma SaveAccountOnce(accounts: seq<Account>, a: Account, now: int)
    requires CountKey(accounts, AccountId, a.id) <= 1
    ensures CountKey(SavedAccounts(accounts, a, now), AccountId, a.id) == 1
  {
    SavedAccountsKeepIds(accounts, a, now, a.id);
    UpsertCount(accounts, AccountId, a.id, a.(updatedAt := now), a.(createdAt := now, updatedAt := now));
  }

  /** Every account owned by the saved account's configuration lies within the sweep scope. */
  lemma ScopeCoversOwned(configId: string, aId: string, bId: string)
    requires configId + "-" <= aId && configId + "-" <= bId
    ensures SweepScope(aId) <= bId
  {
    var x := aId[|configId| + 1..];
    assert aId == configId + ['-'] + x;
    SplitHeadExtend(configId, x, '-');
    SplitHead(configId, '-');
    var h := Split(configId, '-')[0];
    assert h + "-" <= configId + "-";
  }

  /**
   * Default uniqueness: after saving a default account of configuration `c`
   * whose id was stored at most once, it is the one and only default among the
   * accounts `c` owns.
   */
  lemma SaveDefaultUnique(accounts: seq<Account>, a: Account, now: int, c: string)
    requires a.isDefault && OwnedBy(a, c)
    requires CountKey(accounts, AccountId, a.id) <= 1
    ensures var r := SavedAccounts(accounts, a, now);
      && (exists i :: 0 <= i < |r| && r[i].id == a.id && OwnedBy(r[i], c) && r[i].isDefault)
      && forall i :: 0 <= i < |r| && OwnedBy(r[i], c) && r[i].isDefault ==> r[i].id == a.id && i == SavedIndex(accounts, a)
  {
    var r := SavedAccounts(accounts, a, now);
    var k := SavedIndex(accounts, a);
    SaveAccountEffect(accounts, a, now);
    SaveAccountOnce(accounts, a, now);
    assert r[k].id == a.id && OwnedBy(r[k], c) && r[k].isDefault;
    forall i | 0 <= i < |r| && OwnedBy(r[i], c) && r[i].isDefault
      ensures r[i].id == a.id && i == k
    {
      ScopeCoversOwned(c, a.id, r[i].id);
      SaveDefaultSweep(accounts, a, now);
      CountKeyOne(r, AccountId, a.id, i, k);
    }
  }

  /**
   * The sweep reaches beyond one configuration: with configurations "5-a" and
   * "5-b" (ids as `generateId` makes them share the millisecond part), saving a
   * default account of "5-b" clears the default of an account of "5-a".
   */
  lemma SweepCrossesConfigurations()
    ensures var other := Account("5-a-x", "", true, true, map[], 0, 0);
      var saved := Account("5-b-y", "", true, true, map[], 0, 0);
      var r := SavedAccounts([other], saved, 7);
      && OwnedBy(other, "5-a") && !OwnedBy(saved, "5-a")
      && r[0].id == "5-a-x" && !r[0].isDefault
  {
    var other := Account("5-a-x", "", true, true, map[], 0, 0);
    var saved := Account("5-b-y", "", true, true, map[], 0, 0);
    assert "5-b-y" == "5" + ['-'] + "b-y";
    SplitHeadExtend("5", "b-y", '-');
    DigitsHaveNoSeparator("5");
    assert SweepScope(saved.id) == "5-";
    assert "5-" <= other.id;
    assert IndexOf([other], AccountId, saved.id) == -1;
  }

  // ---------------------------------------------------------------------------
  // Deletion

  function ConfigIdIsNot(id: string): DomainConfig -> bool
  {
    (c: DomainConfig) => c.id != id
  }

  function NotOwnedBy(id: string): Account -> bool
  {
    (a: Account) => !OwnedBy(a, id)
  }

  function AccountIdIsNot(id: string): Account -> bool
  {
    (a: Account) => a.id != id
  }

  /** `deleteDomainConfig`'s two filters. */
  function RemoveConfig(configs: seq<DomainConfig>, id: string): seq<DomainConfig>
  {
    Filter(configs, ConfigIdIsNot(id))
  }

  function RemoveOwned(accounts: seq<Account>, id: string): seq<Account>
  {
    Filter(accounts, NotOwnedBy(id))
  }

  /** `deleteAccount`'s filter. */
  function RemoveAccount(accounts: seq<Account>, id: string): seq<Account>
  {
    Filter(accounts, AccountIdIsNot(id))
  }

  /**
   * Cascade delete: afterwards no configuration has the id, the configuration
   * owns no account, and every other entry survives.
   */
  lemma DeleteConfigCascade(data: StorageData, id: string)
    ensures var cs := RemoveConfig(data.domainConfigs, id);
      var kept := RemoveOwned(data.accounts, id);
      && (forall c :: c in cs <==> c in data.domainConfigs && c.id != id)
      && (forall a :: a in kept <==> a in data.accounts && !OwnedBy(a, id))
      && AccountsOf(kept, id) == []
  {
    var kept := RemoveOwned(data.accounts, id);
    assert forall i :: 0 <= i < |kept| ==> !Owned(id)(kept[i]) by {
      forall i | 0 <= i < |kept| ensures !Owned(id)(kept[i]) {
        assert kept[i] in kept;
      }
    }
    FilterKeepsNone(kept, Owned(id));
  }

  /** Deleting keeps the survivors' relative order: the filters distribute over concatenation. */
  lemma DeleteKeepsOrder(cs1: seq<DomainConfig>, cs2: seq<DomainConfig>, as1: seq<Account>, as2: seq<Account>, id: string)
    ensures RemoveConfig(cs1 + cs2, id) == RemoveConfig(cs1, id) + RemoveConfig(cs2, id)
    ensures RemoveOwned(as1 + as2, id) == RemoveOwned(as1, id) + RemoveOwned(as2, id)
    ensures RemoveAccount(as1 + as2, id) == RemoveAccount(as1, id) + RemoveAccount(as2, id)
  {
    FilterConcat(cs1, cs2, ConfigIdIsNot(id));
    FilterConcat(as1, as2, NotOwnedBy(id));
    FilterConcat(as1, as2, AccountIdIsNot(id));
  }

  /** `deleteAccount` removes exactly the accounts with that id. */
  lemma DeleteAccountExact(accounts: seq<Account>, id: string)
    ensures forall a :: a in RemoveAccount(accounts, id) <==> a in accounts && a.id != id
    ensures (forall j :: 0 <= j < |accounts| ==> accounts[j].id != id) ==> RemoveAccount(accounts, id) == accounts
  {
    if forall j :: 0 <= j < |accounts| ==> accounts[j].id != id {
      FilterKeepsAll(accounts, AccountIdIsNot(id));
    }
  }

  // ---------------------------------------------------------------------------
  // Lookups

  function HostMatcher(host: string): DomainConfig -> bool
  {
    (c: DomainConfig) => DomainMatches(c.domain, host)
  }

  /** `findDomainConfigByDomain`: the configurations are tried in storage order. */
  function FindConfig(configs: seq<DomainConfig>, host: string): Option<DomainConfig>
  {
    var i := FirstWhere(configs, HostMatcher(host));
    if i < 0 then None else Some(configs[i])
  }

  /**
   * The lookup finds nothing exactly when no pattern matches, and otherwise
   * the first configuration, in storage order, whose pattern matches.
   */
  lemma FindConfigSpec(configs: seq<DomainConfig>, host: string)
    ensures var r := FindConfig(configs, host);
      && (r.None? <==> forall j :: 0 <= j < |configs| ==> !DomainMatches(configs[j].domain, host))
      && (r.Some? ==> exists i :: (0 <= i < |configs| && configs[i] == r.value
            && DomainMatches(configs[i].domain, host)
            && forall j :: 0 <= j < i ==> !DomainMatches(configs[j].domain, host)))
  {
  }

  function IsDefaultAccount(a: Account): bool { a.isDefault }

  /**
   * `getDefaultAccount`: the first owned account flagged default, else the
   * first owned account, else none.
   */
  function DefaultAccountOf(accounts: seq<Account>, configId: string): Option<Account>
  {
    var owned := AccountsOf(accounts, configId);
    var i := FirstWhere(owned, IsDefaultAccount);
    if 0 <= i then Some(owned[i])
    else if owned != [] then Some(owned[0])
    else None
  }

  /**
   * No default exactly when the configuration owns no account; the default
   * is owned, is the first owned account flagged default when there is one,
   * and the first owned account otherwise.
   */
  lemma DefaultAccountSpec(accounts: seq<Account>, configId: string)
    ensures var r := DefaultAccountOf(accounts, configId);
      var owned := AccountsOf(accounts, configId);
      && (r.None? <==> owned == [])
      && (r.Some? ==> r.value in accounts && OwnedBy(r.value, configId))
      && ((exists i :: 0 <= i < |owned| && owned[i].isDefault) ==>
            exists i :: 0 <= i < |owned| && owned[i] == r.value && owned[i].isDefault
              && forall j :: 0 <= j < i ==> !owned[j].isDefault)
      && ((forall i :: 0 <= i < |owned| ==> !owned[i].isDefault) && owned != [] ==> r == Some(owned[0]))
  {
    var owned := AccountsOf(accounts, configId);
    var r := DefaultAccountOf(accounts, configId);
    if r.Some? {
      assert r.value in owned;
    }
  }

  /** `getDomainsWithAccounts`: one entry per configuration, each with the accounts it owns. */
  function GroupByConfig(data: StorageData): (r: seq<DomainWithAccounts>)
    ensures |r| == |data.domainConfigs|
  {
    seq(|data.domainConfigs|, i requires 0 <= i < |data.domainConfigs| =>
      DomainWithAccounts(data.domainConfigs[i], AccountsOf(data.accounts, data.domainConfigs[i].id)))
  }

  /** Each group lists, in configuration order, exactly the accounts its configuration owns. */
  lemma GroupByConfigContents(data: StorageData, i: nat, a: Account)
    requires i < |data.domainConfigs|
    ensures GroupByConfig(data)[i].config == data.domainConfigs[i]
    ensures a in GroupByConfig(data)[i].accounts <==> a in data.accounts && OwnedBy(a, data.domainConfigs[i].id)
  {
  }

  // ---------------------------------------------------------------------------
  // Id generation

  /** `s.substr(start, length)` for non-negative arguments. */
  function Substr(s: string, start: nat, length: nat): (r: string)
    ensures |r| <= length
  {
    if |s| <= start then [] else s[start..if start + length <= |s| then start + length else |s|]
  }

  /**
   * `generateId()` with its two sources passed in: the clock reading `now` and
   * the text of `Math.random().toString(36)` (which starts "0.").
   */
  function GenerateId(now: nat, randomBase36: string): string
  {
    NatToString(now) + "-" + Substr(randomBase36, 2, 9)
  }

  /**
   * The first `-`-segment of a generated id, and of an account id built on
   * it as `${configId}-${generateId()}`, is the creation time of the
   * configuration: that is the sweep scope `saveAccount` uses.
   */
  lemma GeneratedScope(now: nat, r: string, suffix: string)
    ensures Split(GenerateId(now, r), '-')[0] == NatToString(now)
    ensures SweepScope(GenerateId(now, r) + "-" + suffix) == NatToString(now) + "-"
  {
    var t := NatToString(now);
    var rest := Substr(r, 2, 9);
    assert GenerateId(now, r) == t + ['-'] + rest;
    SplitHeadExtend(t, rest, '-');
    DigitsHaveNoSeparator(t);
    assert GenerateId(now, r) + "-" + suffix == t + ['-'] + (rest + "-" + suffix);
    SplitHeadExtend(t, rest + "-" + suffix, '-');
  }

  lemma {:induction false} DigitsHaveNoSeparator(t: string)
    requires forall i :: 0 <= i < |t| ==> IsDigit(t[i])
    ensures Split(t, '-')[0] == t
  {
    if t != [] {
      DigitsHaveNoSeparator(t[1..]);
    }
  }

  // ---------------------------------------------------------------------------
  // The store

  function ReadSnapshot(stored: Option<StorageData>): StorageData
  {
    if stored.Some? then stored.value else StorageData([], [])
  }

  class Store {
    /** The blob under the storage key; None while nothing has been written. */
    var stored: Option<StorageData>

    constructor ()
      ensures stored == None
    {
      stored := None;
    }

    /** `getStorageData`: the blob, or empty lists when there is none. */
    function Snapshot(): StorageData
      reads this
    {
      ReadSnapshot(stored)
    }

    function DomainConfigs(): seq<DomainConfig>
      reads this
    {
      Snapshot().domainConfigs
    }

    function Accounts(): seq<Account>
      reads this
    {
      Snapshot().accounts
    }

    /** `getAllDomainConfigs`: an absent blob reads as no configurations. */
    method GetAllDomainConfigs() returns (r: seq<DomainConfig>)
      ensures stored.None? ==> r == []
      ensures stored.Some? ==> r == stored.value.domainConfigs
    {
      r := DomainConfigs();
    }

    /** `getAllAccounts`: an absent blob reads as no accounts. */
    method GetAllAccounts() returns (r: seq<Account>)
      ensures stored.None? ==> r == []
      ensures stored.Some? ==> r == stored.value.accounts
    {
      r := Accounts();
    }

    method GetAccountsByDomainConfigId(configId: string) returns (r: seq<Account>)
      ensures r == AccountsOf(Accounts(), configId)
    {
      var accounts := GetAllAccounts();
      r := AccountsOf(accounts, configId);
    }

    method FindDomainConfigByDomain(host: string) returns (r: Option<DomainConfig>)
      ensures r == FindConfig(DomainConfigs(), host)
    {
      var configs := GetAllDomainConfigs();
      r := FindConfig(configs, host);
    }

    method GetDefaultAccount(configId: string) returns (r: Option<Account>)
      ensures r == DefaultAccountOf(Accounts(), configId)
    {
      var owned := GetAccountsByDomainConfigId(configId);
      var i := FirstWhere(owned, IsDefaultAccount);
      if 0 <= i {
        r := Some(owned[i]);
      } else if owned != [] {
        r := Some(owned[0]);
      } else {
        r := None;
      }
    }

    method GetDomainsWithAccounts() returns (r: seq<DomainWithAccounts>)
      ensures r == GroupByConfig(Snapshot())
    {
      var configs := GetAllDomainConfigs();
      var accounts := GetAllAccounts();
      r := seq(|configs|, i requires 0 <= i < |configs| =>
        DomainWithAccounts(configs[i], AccountsOf(accounts, configs[i].id)));
    }

    /** `saveDomainConfig`: upsert by id; the accounts are written back untouched. */
    method SaveDomainConfig(config: DomainConfig, now: int)
      modifies this
      ensures stored == Some(old(Snapshot()).(domainConfigs := UpsertConfig(old(DomainConfigs()), config, now)))
      ensures Accounts() == old(Accounts())
    {
      var configs := GetAllDomainConfigs();
      var existingIndex := FindIndex(configs, ConfigId, config.id);
      if 0 <= existingIndex {
        configs := configs[existingIndex := config.(updatedAt := now)];
      } else {
        configs := configs + [config.(createdAt := now, updatedAt := now)];
      }
      var data := Snapshot();
      stored := Some(data.(domainConfigs := configs));
    }

    /**
     * `saveAccount`: upsert by id, then, for a default account, the sweep over
     * its scope; the configurations are written back untouched.
     */
    method SaveAccount(account: Account, now: int)
      modifies this
      ensures stored == Some(old(Snapshot()).(accounts := SavedAccounts(old(Accounts()), account, now)))
      ensures DomainConfigs() == old(DomainConfigs())
    {
      var accounts := GetAllAccounts();
      var existingIndex := FindIndex(accounts, AccountId, account.id);
      if 0 <= existingIndex {
        accounts := accounts[existingIndex := account.(updatedAt := now)];
      } else {
        accounts := accounts + [account.(createdAt := now, updatedAt := now)];
      }
      ghost var upserted := accounts;
      assert upserted == UpsertAccount(old(Accounts()), account, now);
      if account.isDefault {
        var scope := Split(account.id, '-')[0] + "-";
        var k := 0;
        while k < |accounts|
          invariant 0 <= k <= |accounts| == |upserted|
          invariant forall j :: 0 <= j < k ==> accounts[j] == Cleared(upserted[j], scope, account.id)
          invariant forall j :: k <= j < |accounts| ==> accounts[j] == upserted[j]
        {
          if scope <= accounts[k].id && accounts[k].id != account.id {
            accounts := accounts[k := accounts[k].(isDefault := false)];
          }
          k := k + 1;
        }
        assert accounts == ClearOtherDefaults(upserted, scope, account.id);
      }
      var data := Snapshot();
      stored := Some(data.(accounts := accounts));
    }

    /** `deleteDomainConfig`: drop the configuration and, by prefix, every account it owns. */
    method DeleteDomainConfig(id: string)
      modifies this
      ensures stored == Some(StorageData(RemoveConfig(old(DomainConfigs()), id), RemoveOwned(old(Accounts()), id)))
    {
      var configs := GetAllDomainConfigs();
      var filtered := RemoveConfig(configs, id);
      var accounts := GetAllAccounts();
      var filteredAccounts := RemoveOwned(accounts, id);
      var data := Snapshot();
      stored := Some(data.(domainConfigs := filtered, accounts := filteredAccounts));
    }

    /** `deleteAccount`: drop the accounts with that id; configurations (and their `defaultAccountId`) stay. */
    method DeleteAccount(id: string)
      modifies this
      ensures stored == Some(old(Snapshot()).(accounts := RemoveAccount(old(Accounts()), id)))
      ensures DomainConfigs() == old(DomainConfigs())
    {
      var accounts := GetAllAccounts();
      var filtered := RemoveAccount(accounts, id);
      var data := Snapshot();
      stored := Some(data.(accounts := filtered));
    }

    /** `exportStorageData`: the blob as stored, or empty lists when there is none. */
    method ExportStorageData() returns (data: StorageData)
      ensures stored.None? ==> data == StorageData([], [])
      ensures stored.Some? ==> data == stored.value
    {
      data := Snapshot();
    }

    /** `importStorageData`: replace the whole blob; a following export returns `data` unchanged. */
    method ImportStorageData(data: StorageData)
      modifies this
      ensures stored == Some(data)
      ensures Snapshot() == data
    {
      stored := Some(data);
    }
  }
}
