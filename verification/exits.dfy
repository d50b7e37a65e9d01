// Landing exit endpoints (backend/internal/api/landing_exits.go).

module ExitOps {
  import opened Wrappers
  import opened Text
  import opened Model
  import opened Integrity

  /** The record a body becomes; None when it is refused. */
  function ExitForm(x: LandingExit): (form: Option<LandingExit>)
    ensures form.Some? ==> Complete(form.value) && form.value.name != ""
    ensures form.None? <==> TrimSpace(x.host) == "" || !(1 <= x.port <= 65535) || TrimSpace(x.username) == "" || TrimSpace(x.password) == ""
  {
    var name, host, username, password := TrimSpace(x.name), TrimSpace(x.host), TrimSpace(x.username), TrimSpace(x.password);
    if host == "" || x.port < 1 || x.port > 65535 || username == "" || password == "" then None
    else Some(x.(name := OrDefault(name, host + ":" + Itoa(x.port)), host := host, username := username, password := password))
  }

  method NormalizeExit(x: LandingExit) returns (r: Result<LandingExit>)
    ensures r.Ok? <==> ExitForm(x).Some?
    ensures r.Ok? ==> ExitForm(x) == Some(r.value)
  {
    var y := x.(name := TrimSpace(x.name), host := TrimSpace(x.host), username := TrimSpace(x.username), password := TrimSpace(x.password));
    if y.host == "" {
      return Err("host required");
    }
    if y.port < 1 || y.port > 65535 {
      return Err("port out of range");
    }
    if y.username == "" || y.password == "" {
      return Err("credentials required");
    }
    if y.name == "" {
      y := y.(name := y.host + ":" + Itoa(y.port));
    }
    return Ok(y);
  }

  /** A new exit is enabled, and always one that can be dialled. */
  method CreateExit(store: Store, body: LandingExit, newID: string) returns (r: Result<LandingExit>)
    requires Sound(store)
    modifies store`exits
    ensures Sound(store)
    ensures r.Ok? <==> ExitForm(body).Some?
    ensures r.Ok? ==> r.value == ExitForm(body).value.(id := newID, enabled := true)
    ensures store.exits == if r.Ok? then old(store.exits)[newID := r.value] else old(store.exits)
  {
    r := NormalizeExit(body);
    if r.Ok? {
      var x := r.value.(id := newID, enabled := true);
      store.exits := store.exits[newID := x];
      r := Ok(x);
    }
  }

  method UpdateExit(store: Store, id: string, body: LandingExit) returns (r: Result<LandingExit>)
    requires Sound(store)
    modifies store`exits
    ensures Sound(store)
    ensures r.Ok? <==> id != "" && id in old(store.exits) && ExitForm(body).Some?
    ensures r.Ok? ==> r.value == ExitForm(body).value.(id := id)
    ensures store.exits == if r.Ok? then old(store.exits)[id := r.value] else old(store.exits)
  {
    if id == "" || id !in store.exits {
      return Err("not found");
    }
    r := NormalizeExit(body);
    if r.Ok? {
      var x := r.value.(id := id);
      store.exits := store.exits[id := x];
      r := Ok(x);
    }
  }

  /** A fixed exit that a relay leaves by, as far as the code can tell. */
  predicate UsedBy(x: LandingExit, r: RelayRoute) {
    r.routeMode == "socks5_route" && r.manualSocksHost == x.host && r.manualSocksPort == x.port && r.manualSocksUsername == x.username
  }

  /** An exit goes only when no fixed-exit relay has its address and user. */
  method DeleteExit(store: Store, id: string) returns (ok: bool)
    requires Sound(store)
    modifies store`exits
    ensures Sound(store)
    ensures ok <==> id != "" && id in old(store.exits) && !exists k | k in store.relays ::
      && store.relays[k].routeMode == "socks5_route" && store.relays[k].manualSocksHost == old(store.exits)[id].host
      && store.relays[k].manualSocksPort == old(store.exits)[id].port && store.relays[k].manualSocksUsername == old(store.exits)[id].username
    ensures store.exits == if ok then old(store.exits) - {id} else old(store.exits)
  {
    if id == "" || id !in store.exits {
      return false;
    }
    var x, todo := store.exits[id], store.relays.Keys;
    while todo != {}
      invariant todo <= store.relays.Keys
      invariant forall k | k in store.relays.Keys - todo :: !UsedBy(x, store.relays[k])
      decreases todo
    {
      var k :| k in todo;
      todo := todo - {k};
      if UsedBy(x, store.relays[k]) {
        return false;
      }
    }
    store.exits := store.exits - {id};
    return true;
  }

  /** The end of a connection test: the record read before the test is written back. */
  method FinishExitTest(store: Store, id: string, read: LandingExit)
    requires Sound(store) && Complete(read)
    modifies store`exits
    ensures Sound(store) && store.exits == old(store.exits)[id := read]
  {
    store.exits := store.exits[id := read];
  }

  /** A deletion, or an edit, between the two locks of a test leaves no trace: the test undoes it. */
  method ChangeDuringTest(store: Store, id: string, edit: Option<LandingExit>)
    requires Sound(store) && id in store.exits
    modifies store`exits
    ensures Sound(store) && store.exits == old(store.exits)
  {
    var read := store.exits[id];
    if edit.Some? {
      var r := UpdateExit(store, id, edit.value);
    } else {
      var ok := DeleteExit(store, id);
    }
    FinishExitTest(store, id, read);
  }
}
