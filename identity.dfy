/** Which identity a directory connection binds with (`get_ad_connection`) and
    which principal a login is checked against (`verify_ad_login`). */
module Identity {
  import opened Wrappers
  import opened Strings

  /** The application configuration; a key that is absent reads as `None`. */
  datatype Config = Config(
    server: Option<string>,    // AD_SERVER
    baseDn: string,            // AD_BASEDN
    domain: Option<string>,    // AD_DOMAIN
    user: Option<string>,      // AD_USER, the fallback bind account
    password: Option<string>   // AD_PASS
  )

  /** The credentials the login page stored in the web session, if any. */
  datatype Session = Session(account: Option<string>, password: Option<string>)

  datatype Credentials = Credentials(user: Option<string>, password: Option<string>)

  /** Python truthiness of an optional string: present and non-empty. */
  predicate Truthy(o: Option<string>) { o.Some? && o.value != "" }

  /** How an f-string renders an optional value: `None` prints as "None". */
  function Render(o: Option<string>): string {
    if o.None? then "None" else o.value
  }

  /** The account name completed to `account@domain` unless it already holds
      an `@` or no domain is configured. */
  function Principal(account: string, domain: Option<string>): (upn: string)
    ensures StartsWith(upn, account)
    ensures '@' in upn <==> '@' in account || Truthy(domain)
    ensures '@' in account || !Truthy(domain) ==> upn == account
  {
    ContainsChar(account, '@');
    if !Contains(account, "@") && Truthy(domain) then
      assert (account + "@" + domain.value)[|account|] == '@';
      account + "@" + domain.value
    else account
  }

  /** Completing a principal a second time changes nothing. */
  lemma PrincipalIdempotent(account: string, domain: Option<string>)
    ensures Principal(Principal(account, domain), domain) == Principal(account, domain)
  {
    var upn := Principal(account, domain);
    ContainsChar(account, '@');
    ContainsChar(upn, '@');
  }

  /** The suffix that `Principal` adds is exactly `@` and the configured domain. */
  lemma PrincipalSuffix(account: string, domain: Option<string>)
    requires '@' !in account && Truthy(domain)
    ensures Principal(account, domain)[|account|..] == "@" + domain.value
  {
    ContainsChar(account, '@');
  }

  /** The bind identity of `get_ad_connection`: the session's credentials when
      both are stored, otherwise the configured fallback account. */
  function BindCredentials(cfg: Config, session: Session): (c: Credentials)
    ensures session.account.None? || session.password.None? ==>
      c == Credentials(cfg.user, cfg.password)
    ensures session.account.Some? && session.password.Some? ==>
      c.password == session.password && c.user.Some? &&
      StartsWith(c.user.value, session.account.value) &&
      ('@' in c.user.value <==> '@' in session.account.value || Truthy(cfg.domain))
    ensures session.account.Some? && session.password.Some? ==>
      c.user == Some(Principal(session.account.value, cfg.domain))
  {
    if session.account.Some? && session.password.Some? then
      Credentials(Some(Principal(session.account.value, cfg.domain)), session.password)
    else
      Credentials(cfg.user, cfg.password)
  }

  /** The principal `verify_ad_login` binds with: `username@domain` unless the
      name already holds an `@`; an unset domain is rendered as "None". */
  function LoginPrincipal(cfg: Config, username: string): (upn: string)
    ensures '@' in upn
    ensures StartsWith(upn, username)
    ensures '@' in username ==> upn == username
    ensures '@' !in username ==> upn[|username|..] == "@" + Render(cfg.domain)
  {
    ContainsChar(username, '@');
    if !Contains(username, "@") then
      assert (username + "@" + Render(cfg.domain))[|username|] == '@';
      username + "@" + Render(cfg.domain)
    else username
  }

  /** With a domain configured, the identity later connections bind with is the
      one the login checked: the login page stores the name as typed, and both
      sides complete it the same way. */
  lemma LoginMatchesSessionBind(cfg: Config, username: string, password: string)
    requires Truthy(cfg.domain)
    ensures BindCredentials(cfg, Session(Some(username), Some(password))) ==
      Credentials(Some(LoginPrincipal(cfg, username)), Some(password))
  {
  }

  /** Without a domain, login checks `name@None` while later connections bind
      as the bare name. */
  lemma LoginDiffersWithoutDomain(cfg: Config, username: string, password: string)
    requires cfg.domain.None? && '@' !in username
    ensures LoginPrincipal(cfg, username) == username + "@None"
    ensures BindCredentials(cfg, Session(Some(username), Some(password))).user == Some(username)
  {
    ContainsChar(username, '@');
  }
}
