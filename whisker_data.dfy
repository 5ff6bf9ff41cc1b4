/**
 * What a webview learns about its account, and how its messages reach the
 * host page: the whisker-data projection and the webview message dispatch.
 */
module WhiskerData {
  import opened Wrappers
  import opened Records

  /** The proxy fields of an account that the webview shares. */
  const ProxyFields: set<string> :=
    {"proxyEnabled", "proxyHost", "proxyPort", "proxyUsername", "proxyPassword"}

  datatype WhiskerData = WhiskerData(account: Record, sharedSettings: Record, settings: Record)

  /**
   * `getWhiskerData({ account, settings })`: the account's title and
   * partition; `allowProxies` from the settings with the account's five
   * proxy fields; and the theme. Fields that are undefined are absent.
   */
  function GetWhiskerData(account: Record, settings: Record): (r: WhiskerData)
    ensures r.account.Keys <= {"title", "partition"}
    ensures forall k :: k in {"title", "partition"} ==> Field(r.account, k) == Field(account, k)
    ensures r.sharedSettings.Keys <= {"allowProxies"} + ProxyFields
    ensures Field(r.sharedSettings, "allowProxies") == Field(settings, "allowProxies")
    ensures forall k :: k in ProxyFields ==> Field(r.sharedSettings, k) == Field(account, k)
    ensures r.settings.Keys <= {"theme"}
    ensures Field(r.settings, "theme") == Field(settings, "theme")
  {
    WhiskerData(
      Pick(account, {"title", "partition"}),
      Pick(settings, {"allowProxies"}) + Pick(account, ProxyFields),
      Pick(settings, {"theme"}))
  }

  /** No credential or setting other than the listed ones leaks to the webview. */
  lemma WhiskerDataOmitsOtherFields(account: Record, settings: Record, k: string)
    requires k !in {"title", "partition", "allowProxies", "theme"} && k !in ProxyFields
    ensures var r := GetWhiskerData(account, settings);
      k !in r.account && k !in r.sharedSettings && k !in r.settings
  {
  }

  /** An `ipc-message` event from a webview: its channel and the `{ action, data }` first argument. */
  datatype IpcMessage = IpcMessage(channel: string, action: string, data: Value)

  /** An entry of the handler table: a function (named here) or any other value. */
  datatype HandlerEntry = Function(name: string) | NotAFunction

  /** A message sent to the webview. */
  datatype Outgoing = Outgoing(channel: string, data: Value)

  /** The reply callback handed to a handler: it sends on the host channel. */
  function Reply(data: Value): (m: Outgoing)
    ensures m.channel == "host-message" && m.data == data
  {
    Outgoing("host-message", data)
  }

  /** A handler call `handlers[action](data, reply)`. */
  datatype Invocation = Invocation(handler: string, data: Value)

  /**
   * The functions every object literal inherits from `Object.prototype`;
   * `handlers[name]` finds them when the table has no own entry of that
   * name.
   */
  const InheritedFunctions: set<string> := {
    "constructor", "hasOwnProperty", "isPrototypeOf", "propertyIsEnumerable",
    "toLocaleString", "toString", "valueOf",
    "__defineGetter__", "__defineSetter__", "__lookupGetter__", "__lookupSetter__"
  }

  /** `handlers[action]`: the own entry, else the inherited function, else nothing callable. */
  function Lookup(handlers: map<string, HandlerEntry>, action: string): (e: HandlerEntry)
    ensures action in handlers ==> e == handlers[action]
    ensures action !in handlers && action in InheritedFunctions ==> e == Function(action)
    ensures action !in handlers && action !in InheritedFunctions ==> e.NotAFunction?
  {
    if action in handlers then handlers[action]
    else if action in InheritedFunctions then Function(action)
    else NotAFunction
  }

  /**
   * The listener `registerWebviewMessage` attaches: a handler runs only for
   * the `webview-message` channel and an action whose entry, own or
   * inherited, is a function; every other message does nothing.
   */
  function Dispatch(handlers: map<string, HandlerEntry>, event: IpcMessage): (r: Option<Invocation>)
    ensures r.Some? <==> event.channel == "webview-message" && Lookup(handlers, event.action).Function?
    ensures r.Some? ==> r.value == Invocation(Lookup(handlers, event.action).name, event.data)
  {
    var entry := Lookup(handlers, event.action);
    if event.channel == "webview-message" && entry.Function? then
      Some(Invocation(entry.name, event.data))
    else None
  }

  /**
   * Messages on other channels, and actions that are neither an own entry
   * nor an inherited function, never reach a handler.
   */
  lemma OnlyWebviewMessagesDispatch(handlers: map<string, HandlerEntry>, event: IpcMessage)
    requires event.channel != "webview-message"
             || (event.action !in handlers && event.action !in InheritedFunctions)
    ensures Dispatch(handlers, event).None?
  {
  }

  /**
   * `typeof handlers[action] === "function"` also holds for the inherited
   * names: a message for `toString` that the table does not define calls
   * the inherited `toString`.
   */
  lemma InheritedNameDispatches(handlers: map<string, HandlerEntry>, event: IpcMessage)
    requires event.channel == "webview-message"
    requires event.action !in handlers && event.action in InheritedFunctions
    ensures Dispatch(handlers, event) == Some(Invocation(event.action, event.data))
  {
  }
}
