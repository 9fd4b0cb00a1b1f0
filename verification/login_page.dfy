/**
  The login form (components/LoginPage.tsx): a check against the demo
  credentials, the "remember me" cache kept in the browser's key-value store,
  and the pre-fill that reads that cache when the form mounts. The store is a
  plain map from keys to strings.
 */
module LoginPage {
  import opened Optional

  const RememberedUserKey: string := "rememberedUser"
  const RememberedPasswordKey: string := "rememberedPassword"
  const DemoUsername: string := "budstech"
  const DemoPassword: string := "12345"
  const InvalidCredentials: string := "Invalid username or password."

  type Store = map<string, string>

  /** `localStorage.getItem(key)`: null when the key is absent. */
  function GetItem(store: Store, key: string): Option<string> {
    if key in store then Some(store[key]) else None
  }

  /** JavaScript truthiness of a `getItem` result: present and non-empty. */
  predicate Truthy(v: Option<string>) {
    v.Some? && v.value != ""
  }

  /** The form's state; the show-password switch only changes how the field is drawn. */
  datatype Form = Form(username: string, password: string, error: string, rememberMe: bool)

  const EmptyForm: Form := Form("", "", "", false)

  /** The cache holds a usable pair of credentials. */
  ghost predicate HasRememberedPair(store: Store) {
    && RememberedUserKey in store && store[RememberedUserKey] != ""
    && RememberedPasswordKey in store && store[RememberedPasswordKey] != ""
  }

  /** The form as the mount effect leaves it. */
  function Mount(store: Store): (f: Form)
    ensures f.rememberMe <==> HasRememberedPair(store)
    ensures f.rememberMe ==>
              f == Form(store[RememberedUserKey], store[RememberedPasswordKey], "", true)
    ensures !f.rememberMe ==> f == EmptyForm
  {
    var rememberedUser := GetItem(store, RememberedUserKey);
    var rememberedPassword := GetItem(store, RememberedPasswordKey);
    if Truthy(rememberedUser) && Truthy(rememberedPassword) then
      EmptyForm.(username := rememberedUser.value, password := rememberedPassword.value, rememberMe := true)
    else EmptyForm
  }

  /** What a submit leaves behind; `loggedIn` records whether `onLogin` was called. */
  datatype Submission = Submission(form: Form, store: Store, loggedIn: bool)

  /** `handleLogin`. */
  function HandleLogin(form: Form, store: Store): (r: Submission)
    ensures r.loggedIn <==> form.username == DemoUsername && form.password == DemoPassword
    ensures r.loggedIn && form.rememberMe ==>
              && r.store.Keys == store.Keys + {RememberedUserKey, RememberedPasswordKey}
              && r.store[RememberedUserKey] == form.username
              && r.store[RememberedPasswordKey] == form.password
    ensures r.loggedIn && !form.rememberMe ==>
              r.store.Keys == store.Keys - {RememberedUserKey, RememberedPasswordKey}
    ensures r.loggedIn ==> r.form == form
    ensures !r.loggedIn ==> r.store == store && r.form == form.(error := InvalidCredentials)
    ensures forall k :: k != RememberedUserKey && k != RememberedPasswordKey ==>
              (k in r.store <==> k in store) && (k in store ==> r.store[k] == store[k])
  {
    if form.username == DemoUsername && form.password == DemoPassword then
      var written :=
        if form.rememberMe then
          store[RememberedUserKey := form.username][RememberedPasswordKey := form.password]
        else
          store - {RememberedUserKey} - {RememberedPasswordKey};
      Submission(form, written, true)
    else
      Submission(form.(error := InvalidCredentials), store, false)
  }

  /**
    The form's submit event. Both inputs are `required`, so the browser does
    not submit while either is empty: the handler does not run and nothing
    changes. Otherwise the submit is `handleLogin`.
   */
  function Submit(form: Form, store: Store): (r: Submission)
    ensures form.username == "" || form.password == "" ==> r == Submission(form, store, false)
    ensures form.username != "" && form.password != "" ==> r == HandleLogin(form, store)
    ensures r.loggedIn <==> form.username == DemoUsername && form.password == DemoPassword
  {
    if form.username == "" || form.password == "" then Submission(form, store, false)
    else HandleLogin(form, store)
  }

  /** After a remembered login, the next mount pre-fills exactly the accepted credentials. */
  lemma RememberedLoginPrefillsNextMount(form: Form, store: Store)
    requires form.rememberMe
    requires HandleLogin(form, store).loggedIn
    ensures Mount(HandleLogin(form, store).store) == Form(DemoUsername, DemoPassword, "", true)
  {
  }

  /** After a login without "remember me", the next mount starts from an empty form. */
  lemma ForgottenLoginClearsNextMount(form: Form, store: Store)
    requires !form.rememberMe
    requires HandleLogin(form, store).loggedIn
    ensures Mount(HandleLogin(form, store).store) == EmptyForm
  {
  }

  /** A rejected attempt changes neither the cache nor what the next mount shows. */
  lemma FailedLoginKeepsNextMount(form: Form, store: Store)
    requires !HandleLogin(form, store).loggedIn
    ensures Mount(HandleLogin(form, store).store) == Mount(store)
  {
  }
}
