/**
 * The persisted data model of the autofill extension: domain configurations,
 * their field locators ("selectors") and the saved value sets ("accounts").
 * The deprecated `username`, `password` and legacy `rules` fields are not part
 * of this model.
 */
module Types {

  datatype Option<+T> = None | Some(value: T)

  /** How a locator string is evaluated against the page. */
  datatype SelectorType = Css | XPath

  /** One field locator of a domain configuration. */
  datatype SelectorItem = SelectorItem(
    id: string,
    alias: Option<string>,
    selector: string,
    selectorType: SelectorType,
    createdAt: int,
    updatedAt: int)

  /** A domain configuration; `domain` is an exact host name or a `*` pattern. */
  datatype DomainConfig = DomainConfig(
    id: string,
    domain: string,
    alias: Option<string>,
    selectors: seq<SelectorItem>,
    defaultAccountId: Option<string>,
    createdAt: int,
    updatedAt: int)

  /**
   * A saved value set. Its owning configuration is not stored: an account
   * belongs to configuration `c` when its id starts with `c.id + "-"`.
   * `selectorValues` maps selector ids to the text to inject.
   */
  datatype Account = Account(
    id: string,
    accountLabel: string,   // `label` in the source; `label` is a Dafny keyword
    autoFill: bool,
    isDefault: bool,
    selectorValues: map<string, string>,
    createdAt: int,
    updatedAt: int)

  /** The single blob kept under the extension's storage key. */
  datatype StorageData = StorageData(domainConfigs: seq<DomainConfig>, accounts: seq<Account>)

  /** One configuration together with the accounts it owns. */
  datatype DomainWithAccounts = DomainWithAccounts(config: DomainConfig, accounts: seq<Account>)

  function ConfigId(c: DomainConfig): string { c.id }

  function AccountId(a: Account): string { a.id }
}
