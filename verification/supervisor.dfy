/** The OLED add-on's client for the Home Assistant Supervisor API: request
    dispatch, the `data` getters, and the choices made over their parsed
    JSON (host IP, Home Assistant URL, update and backup summary, power
    permissions, host reboot and shutdown).

    HTTP is an oracle `Transport`: it maps a request to the response the
    Supervisor gives, or to `None` when `requests` raises (timeout,
    connection error). A response body is `None` when it is not JSON. */
module Supervisor {
  import opened Wrappers
  import opened Strings
  import opened Json

  const SupervisorBase: string := "http://supervisor/"
  const NoNetwork: string := "No Network"
  const EmptyObject: Json := JObj(map[])
  const EmptyList: Json := JArr([])

  // ---------------------------------------------------------------------
  // Transport and request dispatch
  // ---------------------------------------------------------------------

  datatype Verb = GET | POST
  datatype HttpCall = HttpCall(verb: Verb, url: string, authorization: string, timeout: int)
  datatype Response = Response(status: int, body: Option<Json>)
  type Transport = HttpCall -> Option<Response>

  /** The transport and the `SUPERVISOR_TOKEN` environment value. */
  datatype Api = Api(transport: Transport, token: string)

  /** What `request` returned and the HTTP calls it made. */
  datatype Sent = Sent(response: Option<Response>, calls: seq<HttpCall>)

  /** `SupervisorAPI.request`: only "GET" and "POST" reach the network;
      any other method returns `None` having sent nothing. */
  function Request(api: Api, endpoint: string, httpMethod: string, timeout: int): (r: Sent)
    ensures |r.calls| <= 1
    ensures r.calls == [] <==> httpMethod != "GET" && httpMethod != "POST"
    ensures r.calls == [] ==> r.response == None
    ensures r.calls != [] ==>
      && r.calls[0].url == SupervisorBase + endpoint
      && r.calls[0].authorization == "Bearer " + api.token
      && r.calls[0].timeout == timeout
      && (r.calls[0].verb == GET <==> httpMethod == "GET")
      && r.response == api.transport(r.calls[0])
  {
    if httpMethod == "GET" || httpMethod == "POST" then
      var call := HttpCall(if httpMethod == "GET" then GET else POST,
                           SupervisorBase + endpoint, "Bearer " + api.token, timeout);
      Sent(api.transport(call), [call])
    else
      Sent(None, [])
  }

  /** `bool(response)` for a `requests.Response`: false exactly for the
      client and server error statuses 400 to 599. */
  predicate ResponseTruthy(resp: Response) {
    !(400 <= resp.status < 600)
  }

  /** `response and response.status_code == code`. */
  predicate AnsweredWith(resp: Option<Response>, code: int) {
    resp.Some? && ResponseTruthy(resp.value) && resp.value.status == code
  }

  /** The response to a GET of `endpoint` with the default timeout. */
  function Fetch(api: Api, endpoint: string): Option<Response> {
    Request(api, endpoint, "GET", 5).response
  }

  /** `response.json()`, which raises on a body that is not JSON. */
  function JsonBody(resp: Response): Result<Json> {
    if resp.body.Some? then Ok(resp.body.value) else Err(ValueError)
  }

  // ---------------------------------------------------------------------
  // The get_* wrappers
  // ---------------------------------------------------------------------

  /** `get_network_info`, `get_homeassistant_info`, `get_core_info` and
      `get_supervisor_info`: the `data` member of a 200 answer, `{}` for
      every other outcome; a 200 answer that is not a JSON object raises. */
  function GetData(api: Api, endpoint: string): (r: Result<Json>)
    ensures !AnsweredWith(Fetch(api, endpoint), 200) ==> r == Ok(EmptyObject)
    ensures AnsweredWith(Fetch(api, endpoint), 200) ==>
      var body := Fetch(api, endpoint).value.body;
      && (r.Ok? <==> body.Some? && body.value.JObj?)
      && (r.Ok? ==> r.value == (if "data" in body.value.fields then body.value.fields["data"] else EmptyObject))
  {
    var resp := Fetch(api, endpoint);
    if AnsweredWith(resp, 200) then
      var body :- JsonBody(resp.value);
      Get(body, "data", EmptyObject)
    else
      Ok(EmptyObject)
  }

  /** `get_addons` and `get_backups`: `data[key]` of a 200 answer, `[]`
      for every other outcome. */
  function GetDataList(api: Api, endpoint: string, key: string): (r: Result<Json>)
    ensures !AnsweredWith(Fetch(api, endpoint), 200) ==> r == Ok(EmptyList)
    ensures GetData(api, endpoint).Err? ==> r.Err?
    ensures AnsweredWith(Fetch(api, endpoint), 200) && GetData(api, endpoint).Ok? ==>
      var data := GetData(api, endpoint).value;
      && (r.Ok? <==> data.JObj?)
      && (r.Ok? ==> r.value == (if key in data.fields then data.fields[key] else EmptyList))
  {
    var resp := Fetch(api, endpoint);
    if AnsweredWith(resp, 200) then
      var data :- GetData(api, endpoint);
      Get(data, key, EmptyList)
    else
      Ok(EmptyList)
  }

  // ---------------------------------------------------------------------
  // get_ip_address
  // ---------------------------------------------------------------------

  /** `interface.get('ipv4', {}).get('address', [])`. */
  function Addresses(iface: Json): Result<Json> {
    var ipv4 :- Get(iface, "ipv4", EmptyObject);
    Get(ipv4, "address", EmptyList)
  }

  /** `addresses[0].split('/')[0]`: the first address without its prefix
      length. */
  function FirstAddress(addresses: Json): (r: Result<string>)
    ensures addresses.JArr? && |addresses.items| > 0 && addresses.items[0].JStr? ==>
      r == Ok(Before(addresses.items[0].s, '/'))
  {
    var first :- First(addresses);
    if first.JStr? then Ok(Before(first.s, '/')) else Err(AttributeError)
  }

  /** The two passes over the interfaces: primary interfaces first, then
      any interface whose name does not start with "docker". */
  datatype Pass = PrimaryPass | NonDockerPass

  /** Whether `iface` qualifies for `pass`. */
  function Qualifies(iface: Json, pass: Pass): Result<bool> {
    match pass
    case PrimaryPass =>
      var primary :- Get(iface, "primary", JBool(false));
      Ok(Truthy(primary))
    case NonDockerPass =>
      var name :- Get(iface, "interface", JStr(""));
      if name.JStr? then Ok(!StartsWith(name.s, "docker")) else Err(AttributeError)
  }

  /** One interface in one pass: its address if it qualifies and has one. */
  function Candidate(iface: Json, pass: Pass): Result<Option<string>> {
    var qualifies :- Qualifies(iface, pass);
    if !qualifies then Ok(None)
    else
      var addresses :- Addresses(iface);
      if Truthy(addresses) then
        var ip :- FirstAddress(addresses);
        Ok(Some(ip))
      else Ok(None)
  }

  /** Interface `k` is the first one that yields an address or raises. */
  predicate FirstDecisive(ifaces: seq<Json>, pass: Pass, k: int) {
    && 0 <= k < |ifaces|
    && Candidate(ifaces[k], pass) != Ok(None)
    && forall j :: 0 <= j < k ==> Candidate(ifaces[j], pass) == Ok(None)
  }

  /** One `for interface in interfaces` loop: the first interface that
      yields an address or raises decides; if none does, the loop finds
      nothing. */
  function ScanInterfaces(ifaces: seq<Json>, pass: Pass): (r: Result<Option<string>>)
    ensures (forall k :: 0 <= k < |ifaces| ==> Candidate(ifaces[k], pass) == Ok(None)) ==> r == Ok(None)
    ensures forall k :: FirstDecisive(ifaces, pass, k) ==> r == Candidate(ifaces[k], pass)
  {
    if |ifaces| == 0 then Ok(None)
    else
      var head := Candidate(ifaces[0], pass);
      if head != Ok(None) then head
      else
        var r := ScanInterfaces(ifaces[1..], pass);
        forall k | FirstDecisive(ifaces, pass, k) ensures r == Candidate(ifaces[k], pass) {
          assert FirstDecisive(ifaces[1..], pass, k - 1);
        }
        r
  }

  /** The part of `get_ip_address` inside its `try`: `Ok(None)` when both
      passes find nothing, `Err` when something raised. */
  function AddressFromSupervisor(api: Api): Result<Option<string>> {
    var network :- GetData(api, "network/info");
    var listed :- Get(network, "interfaces", EmptyList);
    var ifaces :- Items(listed);
    ChooseAddress(ifaces)
  }

  /** The primary pass, then the non-docker pass when it found nothing. */
  function ChooseAddress(ifaces: seq<Json>): Result<Option<string>> {
    var primary :- ScanInterfaces(ifaces, PrimaryPass);
    if primary.Some? then Ok(primary) else ScanInterfaces(ifaces, NonDockerPass)
  }

  /** `get_ip_address`; `socketIp` is the address the UDP socket fallback
      reports, or `None` when that fallback raises. */
  function GetIpAddress(api: Api, socketIp: Option<string>): (r: string)
    ensures AddressFromSupervisor(api).Ok? && AddressFromSupervisor(api).value.Some? ==>
      r == AddressFromSupervisor(api).value.value
    ensures !(AddressFromSupervisor(api).Ok? && AddressFromSupervisor(api).value.Some?) ==>
      r == socketIp.GetOr(NoNetwork)
  {
    var found := AddressFromSupervisor(api);
    if found.Ok? && found.value.Some? then found.value.value else socketIp.GetOr(NoNetwork)
  }

  /** An interface record of the documented shape: a dict whose name, if
      present, is a string and whose `ipv4.address`, if present, is a list
      of strings. */
  predicate WellFormedInterface(iface: Json) {
    && iface.JObj?
    && ("interface" in iface.fields ==> iface.fields["interface"].JStr?)
    && ("ipv4" in iface.fields ==>
          var ipv4 := iface.fields["ipv4"];
          && ipv4.JObj?
          && ("address" in ipv4.fields ==>
                var list := ipv4.fields["address"];
                list.JArr? && forall i :: 0 <= i < |list.items| ==> list.items[i].JStr?))
  }

  /** The address strings of a well-formed interface record. */
  function AddressList(iface: Json): (r: seq<string>)
    requires WellFormedInterface(iface)
  {
    if "ipv4" in iface.fields && "address" in iface.fields["ipv4"].fields then
      var list := iface.fields["ipv4"].fields["address"];
      seq(|list.items|, i requires 0 <= i < |list.items| => list.items[i].s)
    else []
  }

  /** A well-formed interface qualifies for `pass` with an address. */
  predicate Usable(iface: Json, pass: Pass)
    requires WellFormedInterface(iface)
  {
    && |AddressList(iface)| > 0
    && match pass
       case PrimaryPass => "primary" in iface.fields && Truthy(iface.fields["primary"])
       case NonDockerPass => !("interface" in iface.fields && StartsWith(iface.fields["interface"].s, "docker"))
  }

  /** Over a well-formed record, a candidate never raises: it is the first
      address without its prefix length when the interface is usable. */
  lemma CandidateOfWellFormed(iface: Json, pass: Pass)
    requires WellFormedInterface(iface)
    ensures Candidate(iface, pass) ==
      (if Usable(iface, pass) then Ok(Some(Before(AddressList(iface)[0], '/'))) else Ok(None))
  {
    if "ipv4" in iface.fields && "address" in iface.fields["ipv4"].fields {
      var list := iface.fields["ipv4"].fields["address"];
      assert Addresses(iface) == Ok(list);
      if |list.items| > 0 {
        assert AddressList(iface)[0] == list.items[0].s;
      }
    }
  }

  /** Interface `k` is the first usable one for `pass`. */
  predicate FirstUsable(ifaces: seq<Json>, pass: Pass, k: int)
    requires forall i :: 0 <= i < |ifaces| ==> WellFormedInterface(ifaces[i])
  {
    && 0 <= k < |ifaces|
    && Usable(ifaces[k], pass)
    && forall j :: 0 <= j < k ==> !Usable(ifaces[j], pass)
  }

  /** Over well-formed records a pass returns the first usable interface's
      address, or nothing when no interface is usable. */
  lemma ScanWellFormed(ifaces: seq<Json>, pass: Pass)
    requires forall i :: 0 <= i < |ifaces| ==> WellFormedInterface(ifaces[i])
    ensures (forall k :: 0 <= k < |ifaces| ==> !Usable(ifaces[k], pass)) ==> ScanInterfaces(ifaces, pass) == Ok(None)
    ensures forall k :: FirstUsable(ifaces, pass, k) ==>
      ScanInterfaces(ifaces, pass) == Ok(Some(Before(AddressList(ifaces[k])[0], '/')))
  {
    forall i | 0 <= i < |ifaces| {
      CandidateOfWellFormed(ifaces[i], pass);
    }
    forall k | FirstUsable(ifaces, pass, k)
      ensures ScanInterfaces(ifaces, pass) == Ok(Some(Before(AddressList(ifaces[k])[0], '/')))
    {
      assert FirstDecisive(ifaces, pass, k);
    }
  }

  /** The network info lists `ifaces` as its interfaces. */
  predicate ListsInterfaces(api: Api, ifaces: seq<Json>) {
    && GetData(api, "network/info").Ok?
    && Get(GetData(api, "network/info").value, "interfaces", EmptyList) == Ok(JArr(ifaces))
  }

  /** `get_ip_address` over well-formed interface records: the first
      primary interface with an address wins; failing that, the first
      interface not named "docker..." with an address; failing both, the
      socket fallback or "No Network". */
  lemma IpAddressPriority(api: Api, socketIp: Option<string>, ifaces: seq<Json>)
    requires ListsInterfaces(api, ifaces)
    requires forall i :: 0 <= i < |ifaces| ==> WellFormedInterface(ifaces[i])
    ensures forall k :: FirstUsable(ifaces, PrimaryPass, k) ==>
      GetIpAddress(api, socketIp) == Before(AddressList(ifaces[k])[0], '/')
    ensures (forall k :: 0 <= k < |ifaces| ==> !Usable(ifaces[k], PrimaryPass)) ==>
      forall k :: FirstUsable(ifaces, NonDockerPass, k) ==>
        GetIpAddress(api, socketIp) == Before(AddressList(ifaces[k])[0], '/')
    ensures (forall k :: 0 <= k < |ifaces| ==> !Usable(ifaces[k], PrimaryPass) && !Usable(ifaces[k], NonDockerPass)) ==>
      GetIpAddress(api, socketIp) == socketIp.GetOr(NoNetwork)
  {
    ScanWellFormed(ifaces, PrimaryPass);
    ScanWellFormed(ifaces, NonDockerPass);
    assert Items(JArr(ifaces)) == Ok(ifaces);
    assert AddressFromSupervisor(api) == ChooseAddress(ifaces);
  }

  /** Dropping the prefix length: "192.168.1.100/24" shows as
      "192.168.1.100". */
  lemma {:induction false} PrefixLengthDropped(address: string, length: string)
    requires '/' !in address
    ensures Before(address + "/" + length, '/') == address
  {
    if |address| > 0 {
      assert (address + "/" + length)[1..] == address[1..] + "/" + length;
      PrefixLengthDropped(address[1..], length);
    }
  }

  // ---------------------------------------------------------------------
  // get_ha_url
  // ---------------------------------------------------------------------

  /** The part of `get_ha_url` inside its `try`: a truthy `external_url`,
      else a truthy `internal_url`, else nothing. */
  function ConfiguredUrl(api: Api): Result<Option<Json>> {
    var info :- GetData(api, "homeassistant/info");
    var external :- Get(info, "external_url", JNull);
    var internal :- Get(info, "internal_url", JNull);
    Ok(if Truthy(external) then Some(external) else if Truthy(internal) then Some(internal) else None)
  }

  /** `get_ha_url`: a configured URL, else the host IP on port 8123, else
      `None` when there is no network. Whatever it returns is truthy. */
  function GetHaUrl(api: Api, socketIp: Option<string>): (r: Option<Json>)
    ensures r.Some? ==> Truthy(r.value)
    ensures r == None <==>
      !(ConfiguredUrl(api).Ok? && ConfiguredUrl(api).value.Some?) && GetIpAddress(api, socketIp) == NoNetwork
  {
    var configured := ConfiguredUrl(api);
    if configured.Ok? && configured.value.Some? then configured.value
    else
      var ip := GetIpAddress(api, socketIp);
      if ip != NoNetwork then Some(JStr("http://" + ip + ":8123")) else None
  }

  /** The URL priority for a Home Assistant info object `info`: external,
      then internal (each only when truthy), then the host IP. */
  lemma UrlPriority(api: Api, socketIp: Option<string>, info: map<string, Json>)
    requires GetData(api, "homeassistant/info") == Ok(JObj(info))
    ensures "external_url" in info && Truthy(info["external_url"]) ==>
      GetHaUrl(api, socketIp) == Some(info["external_url"])
    ensures !("external_url" in info && Truthy(info["external_url"])) && "internal_url" in info && Truthy(info["internal_url"]) ==>
      GetHaUrl(api, socketIp) == Some(info["internal_url"])
    ensures !("external_url" in info && Truthy(info["external_url"])) && !("internal_url" in info && Truthy(info["internal_url"])) ==>
      GetHaUrl(api, socketIp) ==
        (var ip := GetIpAddress(api, socketIp); if ip != NoNetwork then Some(JStr("http://" + ip + ":8123")) else None)
  {
  }

  // ---------------------------------------------------------------------
  // get_ha_system_status
  // ---------------------------------------------------------------------

  datatype StatusInfo = StatusInfo(updates: int, repairs: int, lastBackup: Json, backupState: string)

  const InitialStatus: StatusInfo := StatusInfo(0, 0, JNull, "Unknown")

  /** `x.get('update_available', False)` is truthy. */
  function UpdateFlag(x: Json): Result<bool> {
    var flag :- Get(x, "update_available", JBool(false));
    Ok(Truthy(flag))
  }

  /** An add-on entry that is a dict with a truthy `update_available`. */
  predicate HasUpdate(addon: Json) {
    addon.JObj? && "update_available" in addon.fields && Truthy(addon.fields["update_available"])
  }

  /** Updates counted so far, and whether an entry raised part-way. */
  datatype Tally = Tally(count: nat, raised: bool)

  /** The add-on loop: counts entries with an update, stopping at the first
      entry that is not a dict (whose `.get` raises). */
  function CountUpdates(addons: seq<Json>): (r: Tally)
    ensures r.count <= |addons|
    ensures r.raised <==> exists k :: 0 <= k < |addons| && !addons[k].JObj?
    ensures (forall k :: 0 <= k < |addons| ==> HasUpdate(addons[k])) ==> r == Tally(|addons|, false)
    ensures (forall k :: 0 <= k < |addons| ==> !HasUpdate(addons[k])) ==> r.count == 0
  {
    if |addons| == 0 then Tally(0, false)
    else
      match UpdateFlag(addons[0])
      case Err(_) => Tally(0, true)
      case Ok(flag) =>
        var rest := CountUpdates(addons[1..]);
        assert forall k :: 0 < k < |addons| ==> addons[k] == addons[1..][k - 1];
        Tally(rest.count + (if flag then 1 else 0), rest.raised)
  }

  /** Counting over two lists in turn adds up, when the first raised
      nothing. */
  lemma {:induction false} CountUpdatesAppend(a: seq<Json>, b: seq<Json>)
    requires !CountUpdates(a).raised
    ensures CountUpdates(a + b) == Tally(CountUpdates(a).count + CountUpdates(b).count, CountUpdates(b).raised)
  {
    if |a| > 0 {
      assert a[0].JObj?;
      var flag := UpdateFlag(a[0]);
      assert flag.Ok?;
      assert CountUpdates(a) == Tally(CountUpdates(a[1..]).count + (if flag.value then 1 else 0), CountUpdates(a[1..]).raised);
      assert (a + b)[0] == a[0];
      assert (a + b)[1..] == a[1..] + b;
      CountUpdatesAppend(a[1..], b);
      assert CountUpdates(a + b) == Tally(CountUpdates(a[1..] + b).count + (if flag.value then 1 else 0), CountUpdates(a[1..] + b).raised);
    } else {
      assert a + b == b;
    }
  }

  /** The positions below `p` whose add-on reports an update. */
  ghost function UpdatedAddons(addons: seq<Json>, p: nat): set<nat>
    requires p <= |addons|
  {
    set k: nat | k < p && HasUpdate(addons[k])
  }

  /** Over a prefix of dicts the loop neither raises nor misses an add-on:
      it counts exactly the entries that report an update. */
  lemma {:induction false} PrefixCount(addons: seq<Json>, n: nat)
    requires n <= |addons|
    requires forall k :: 0 <= k < n ==> addons[k].JObj?
    ensures CountUpdates(addons[..n]) == Tally(|UpdatedAddons(addons, n)|, false)
  {
    if n == 0 {
      assert UpdatedAddons(addons, 0) == {};
    } else {
      var x := addons[n - 1];
      PrefixCount(addons, n - 1);
      assert addons[..n] == addons[..n - 1] + [x];
      CountUpdatesAppend(addons[..n - 1], [x]);
      CountOne(x);
      UpdatedAddonsStep(addons, n);
    }
  }

  /** A single dict counts 1 exactly when it reports an update. */
  lemma CountOne(x: Json)
    requires x.JObj?
    ensures CountUpdates([x]) == Tally(if HasUpdate(x) then 1 else 0, false)
  {
    assert UpdateFlag(x) == Ok(HasUpdate(x));
    assert [x][1..] == [];
  }

  /** Extending the prefix by one position adds that position when it
      reports an update. */
  lemma UpdatedAddonsStep(addons: seq<Json>, n: nat)
    requires 0 < n <= |addons|
    ensures |UpdatedAddons(addons, n)| ==
      |UpdatedAddons(addons, n - 1)| + (if HasUpdate(addons[n - 1]) then 1 else 0)
  {
    var before := UpdatedAddons(addons, n - 1);
    if HasUpdate(addons[n - 1]) {
      assert UpdatedAddons(addons, n) == before + {n - 1};
      assert n - 1 !in before;
    } else {
      assert UpdatedAddons(addons, n) == before;
    }
  }

  /** The add-on count: with the first non-dict entry at `p` (or none,
      `p` being the length), the loop counts the entries before `p` that
      report an update, and it raises exactly when there is such an entry. */
  lemma UpdatesCounted(addons: seq<Json>, p: nat)
    requires p <= |addons|
    requires forall k :: 0 <= k < p ==> addons[k].JObj?
    requires p < |addons| ==> !addons[p].JObj?
    ensures CountUpdates(addons).count == |UpdatedAddons(addons, p)|
    ensures CountUpdates(addons).raised <==> p < |addons|
  {
    PrefixCount(addons, p);
    if p == |addons| {
      assert addons[..p] == addons;
    } else {
      RaisesAfterPrefix(addons, p);
    }
  }

  /** A clean prefix followed by a non-dict: the prefix's count, raised. */
  lemma RaisesAfterPrefix(addons: seq<Json>, p: nat)
    requires p < |addons| && !addons[p].JObj? && !CountUpdates(addons[..p]).raised
    ensures CountUpdates(addons) == Tally(CountUpdates(addons[..p]).count, true)
  {
    var pre := addons[..p];
    var rest := addons[p..];
    assert addons == pre + rest;
    CountUpdatesAppend(pre, rest);
    RaisesAtFirst(rest);
  }

  /** A list starting with a non-dict raises before counting anything. */
  lemma RaisesAtFirst(rest: seq<Json>)
    requires |rest| > 0 && !rest[0].JObj?
    ensures CountUpdates(rest) == Tally(0, true)
  {
    assert UpdateFlag(rest[0]).Err?;
  }

  /** The backup's date key: `x.get('date', '')`. Dates are compared as
      strings. */
  function DateKey(backup: Json): Result<string> {
    var date :- Get(backup, "date", JStr(""));
    if date.JStr? then Ok(date.s) else Err(TypeError)
  }

  function DateKeys(backups: seq<Json>): (r: Result<seq<string>>)
    ensures r.Ok? ==> |r.value| == |backups|
    ensures r.Ok? ==> forall i :: 0 <= i < |backups| ==> DateKey(backups[i]) == Ok(r.value[i])
  {
    if |backups| == 0 then Ok([])
    else
      var head :- DateKey(backups[0]);
      var tail :- DateKeys(backups[1..]);
      assert forall i :: 0 < i < |backups| ==> backups[i] == backups[1..][i - 1];
      Ok([head] + tail)
  }

  /** `b < a` is ruled out once `a < b` holds. */
  lemma LexLessAsymmetric(a: string, b: string)
    requires LexLess(a, b)
    ensures !LexLess(b, a)
  {
    if LexLess(b, a) {
      LexLessTransitive(a, b, a);
      LexLessIrreflexive(a);
    }
  }

  /** The scan for the latest date from position `i`, `best` being the
      index of the first greatest key before `i`. */
  function LatestFrom(keys: seq<string>, best: nat, i: nat): (k: nat)
    requires best < i <= |keys|
    requires forall j :: 0 <= j < i ==> !LexLess(keys[best], keys[j])
    requires forall j :: 0 <= j < best ==> LexLess(keys[j], keys[best])
    ensures k < |keys|
    ensures forall j :: 0 <= j < |keys| ==> !LexLess(keys[k], keys[j])
    ensures forall j :: 0 <= j < k ==> LexLess(keys[j], keys[k])
    decreases |keys| - i
  {
    if i == |keys| then best
    else if LexLess(keys[best], keys[i]) then
      forall j | 0 <= j < i ensures LexLess(keys[j], keys[i]) && !LexLess(keys[i], keys[j]) {
        LexLessTotal(keys[j], keys[best]);
        if keys[j] != keys[best] {
          LexLessTransitive(keys[j], keys[best], keys[i]);
        }
        LexLessAsymmetric(keys[j], keys[i]);
      }
      LexLessIrreflexive(keys[i]);
      LatestFrom(keys, i, i + 1)
    else
      LatestFrom(keys, best, i + 1)
  }

  /** `sorted(backups, key=date, reverse=True)[0]`: the greatest date, the
      earliest such entry on ties (the sort is stable). */
  function LatestIndex(keys: seq<string>): (k: nat)
    requires |keys| > 0
    ensures k < |keys|
    ensures forall j :: 0 <= j < |keys| ==> !LexLess(keys[k], keys[j])
    ensures forall j :: 0 <= j < k ==> LexLess(keys[j], keys[k])
  {
    LexLessIrreflexive(keys[0]);
    LatestFrom(keys, 0, 1)
  }

  /** The backup part of `get_ha_system_status`, applied to `s`: on any
      exception the status stays as it was. */
  function BackupStatus(listed: Json, s: StatusInfo): (r: StatusInfo)
    ensures r.updates == s.updates && r.repairs == s.repairs
    ensures r != s ==> r.backupState in {"OK", "None"}
    ensures r.backupState != "OK" ==> r.lastBackup == s.lastBackup
  {
    match Items(listed)
    case Err(_) => s
    case Ok(backups) =>
      if |backups| == 0 then s.(backupState := "None")
      else if |backups| == 1 then
        // A one-element list is never compared, so any key type passes.
        match Get(backups[0], "date", JStr(""))
        case Err(_) => s
        case Ok(_) => s.(lastBackup := Get(backups[0], "date", JStr("Unknown")).value, backupState := "OK")
      else
        match DateKeys(backups)
        case Err(_) => s
        case Ok(keys) =>
          var latest := backups[LatestIndex(keys)];
          s.(lastBackup := Get(latest, "date", JStr("Unknown")).value, backupState := "OK")
  }

  /** The number of add-on entries `get_addons` listed, 0 when it raised or
      listed something that is not a list. */
  function ListedCount(listed: Result<Json>): nat {
    if listed.Ok? && listed.value.JArr? then |listed.value.items| else 0
  }

  /** The Supervisor and Core answers are dicts and the add-on answer is a
      list of dicts, so nothing before the backups raises. */
  ghost predicate DictAnswers(api: Api) {
    && GetData(api, "supervisor/info").Ok? && GetData(api, "supervisor/info").value.JObj?
    && GetData(api, "core/info").Ok? && GetData(api, "core/info").value.JObj?
    && GetDataList(api, "addons", "addons").Ok? && GetDataList(api, "addons", "addons").value.JArr?
    && var addons := GetDataList(api, "addons", "addons").value.items;
       forall k :: 0 <= k < |addons| ==> addons[k].JObj?
  }

  /** The updates reported by the Supervisor, the Core and the add-ons. */
  ghost function UpdatesOfAnswers(api: Api): nat
    requires DictAnswers(api)
  {
    var addons := GetDataList(api, "addons", "addons").value.items;
    (if HasUpdate(GetData(api, "supervisor/info").value) then 1 else 0)
    + (if HasUpdate(GetData(api, "core/info").value) then 1 else 0)
    + |UpdatedAddons(addons, |addons|)|
  }

  /** The Supervisor and Core part of the update count: the updates
      counted, and whether both answers were read without raising. */
  function PlatformUpdates(api: Api): (r: (nat, bool))
    ensures r.0 <= 2
    ensures DictAnswers(api) ==>
      r == ((if HasUpdate(GetData(api, "supervisor/info").value) then 1 else 0)
            + (if HasUpdate(GetData(api, "core/info").value) then 1 else 0), true)
  {
    match GetData(api, "supervisor/info")
    case Err(_) => (0, false)
    case Ok(supervisor) =>
      match UpdateFlag(supervisor)
      case Err(_) => (0, false)
      case Ok(supervisorUpdate) =>
        var n := if supervisorUpdate then 1 else 0;
        match GetData(api, "core/info")
        case Err(_) => (n, false)
        case Ok(core) =>
          match UpdateFlag(core)
          case Err(_) => (n, false)
          case Ok(coreUpdate) => (n + if coreUpdate then 1 else 0, true)
  }

  /** The update part of `get_ha_system_status`: the status after the
      Supervisor, Core and add-on answers were counted, and whether the
      count got through without raising. */
  function CountedStatus(api: Api): (r: (StatusInfo, bool))
    ensures 0 <= r.0.updates <= 2 + ListedCount(GetDataList(api, "addons", "addons"))
    ensures r.0.repairs == 0 && r.0.lastBackup == JNull && r.0.backupState == "Unknown"
    ensures DictAnswers(api) ==> r == (InitialStatus.(updates := UpdatesOfAnswers(api)), true)
  {
    DictAnswersCount(api);
    var (platform, clean) := PlatformUpdates(api);
    var s2 := InitialStatus.(updates := platform);
    if !clean then (s2, false)
    else
      match GetDataList(api, "addons", "addons")
      case Err(_) => (s2, false)
      case Ok(listed) =>
        match Items(listed)
        case Err(_) => (s2, false)
        case Ok(addons) =>
          var tally := CountUpdates(addons);
          (s2.(updates := s2.updates + tally.count), !tally.raised)
  }

  /** `get_ha_system_status`: counts available updates and summarises the
      latest backup, keeping whatever was gathered before an exception. */
  function GetHaSystemStatus(api: Api): (r: StatusInfo)
    ensures 0 <= r.updates <= 2 + ListedCount(GetDataList(api, "addons", "addons"))
    ensures r.repairs == 0
    ensures r.backupState in {"Unknown", "OK", "None"}
    ensures r.backupState != "OK" ==> r.lastBackup == JNull
    ensures DictAnswers(api) ==>
      var counted := InitialStatus.(updates := UpdatesOfAnswers(api));
      r == (match GetDataList(api, "backups", "backups")
            case Ok(listed) => BackupStatus(listed, counted)
            case Err(_) => counted)
  {
    var (counted, clean) := CountedStatus(api);
    if !clean then counted
    else
      match GetDataList(api, "backups", "backups")
      case Err(_) => counted
      case Ok(backups) => BackupStatus(backups, counted)
  }

  /** Over dict answers the add-on loop counts exactly the add-ons with an
      update and raises nothing. */
  lemma DictAnswersCount(api: Api)
    ensures DictAnswers(api) ==>
      var addons := GetDataList(api, "addons", "addons").value.items;
      CountUpdates(addons) == Tally(|UpdatedAddons(addons, |addons|)|, false)
  {
    if DictAnswers(api) {
      var addons := GetDataList(api, "addons", "addons").value.items;
      UpdatesCounted(addons, |addons|);
    }
  }

  /** Entry `k` holds the greatest date key, and no earlier entry does. */
  predicate FirstLatest(keys: seq<string>, k: int) {
    && 0 <= k < |keys|
    && (forall j :: 0 <= j < |keys| ==> !LexLess(keys[k], keys[j]))
    && (forall j :: 0 <= j < k ==> LexLess(keys[j], keys[k]))
  }

  /** With a non-empty list of dicts whose dates are strings the state is
      "OK" and the reported date is the greatest one, from the earliest
      entry carrying it; `k` is that entry. An entry without a date sorts
      as "" and reports "Unknown". */
  lemma LatestBackupReported(backups: seq<Json>, s: StatusInfo, keys: seq<string>) returns (k: nat)
    requires |backups| > 0 && DateKeys(backups) == Ok(keys)
    ensures k < |backups| == |keys| && FirstLatest(keys, k)
    ensures "date" in backups[k].fields ==>
      BackupStatus(JArr(backups), s) == s.(lastBackup := JStr(keys[k]), backupState := "OK")
    ensures "date" !in backups[k].fields ==>
      keys[k] == "" && BackupStatus(JArr(backups), s) == s.(lastBackup := JStr("Unknown"), backupState := "OK")
  {
    assert Items(JArr(backups)) == Ok(backups);
    if |backups| == 1 {
      k := 0;
      LexLessIrreflexive(keys[0]);
      assert DateKey(backups[0]).Ok?;
      assert Get(backups[0], "date", JStr("")).Ok?;
    } else {
      k := LatestIndex(keys);
    }
    assert DateKey(backups[k]) == Ok(keys[k]);
    if "date" in backups[k].fields {
      assert Get(backups[k], "date", JStr("Unknown")) == Ok(JStr(keys[k]));
    }
  }

  /** The HA status over dict answers: the updates are those reported by
      the Supervisor, the Core and the add-ons; no backups reads "None";
      otherwise the state is "OK" with the date of the first latest
      backup, or "Unknown" when that backup has no date. */
  lemma HaStatusReport(api: Api, backups: seq<Json>, keys: seq<string>)
    requires DictAnswers(api)
    requires GetDataList(api, "backups", "backups") == Ok(JArr(backups))
    ensures GetHaSystemStatus(api).updates == UpdatesOfAnswers(api)
    ensures |backups| == 0 ==>
      GetHaSystemStatus(api).backupState == "None" && GetHaSystemStatus(api).lastBackup == JNull
    ensures |backups| > 0 && DateKeys(backups) == Ok(keys) ==>
      && GetHaSystemStatus(api).backupState == "OK"
      && forall k :: FirstLatest(keys, k) ==>
           GetHaSystemStatus(api).lastBackup == (if "date" in backups[k].fields then JStr(keys[k]) else JStr("Unknown"))
  {
    var counted := InitialStatus.(updates := UpdatesOfAnswers(api));
    assert GetHaSystemStatus(api) == BackupStatus(JArr(backups), counted);
    if |backups| == 0 {
      NoBackups(counted);
    } else if DateKeys(backups) == Ok(keys) {
      var k0 := LatestBackupReported(backups, counted, keys);
      // the first latest entry is unique
      forall k | FirstLatest(keys, k) ensures k == k0 {
      }
    }
  }

  /** An empty backup list reports the state "None" and no date. */
  lemma NoBackups(s: StatusInfo)
    ensures BackupStatus(JArr([]), s) == s.(backupState := "None")
  {
  }

  // ---------------------------------------------------------------------
  // check_power_permissions
  // ---------------------------------------------------------------------

  const NoTokenMessage: string := "No supervisor token available"
  const CannotAccessMessage: string := "Cannot access supervisor API"
  const GrantedMessage: string := "Addon has host control permissions"
  const LacksManagerMessage: string := "Addon lacks 'manager' role permissions"
  const UnexpectedMessage: string := "Unexpected response from host endpoint"

  datatype PowerCheck = PowerCheck(enabled: bool, message: string)

  /** `check_power_permissions` as written: both responses are checked for
      truthiness before their status is compared. */
  function CheckPowerPermissionsAsWritten(api: Api): PowerCheck {
    if api.token == "" then PowerCheck(false, NoTokenMessage)
    else if AnsweredWith(Fetch(api, "supervisor/info"), 200) then
      var host := Fetch(api, "host/info");
      if AnsweredWith(host, 200) then PowerCheck(true, GrantedMessage)
      else if AnsweredWith(host, 403) then PowerCheck(false, LacksManagerMessage)
      else PowerCheck(false, UnexpectedMessage)
    else PowerCheck(false, CannotAccessMessage)
  }

  /** As written, the "lacks manager role" answer can never be given: a 403
      response is falsy, so a forbidden host endpoint reports an unexpected
      response instead. */
  lemma ManagerMessageUnreachable(api: Api)
    ensures CheckPowerPermissionsAsWritten(api).message != LacksManagerMessage
    ensures (api.token != "" && AnsweredWith(Fetch(api, "supervisor/info"), 200)
             && Fetch(api, "host/info") == Some(Response(403, None))) ==>
      CheckPowerPermissionsAsWritten(api) == PowerCheck(false, UnexpectedMessage)
  {
  }

  /** The intended decision table, testing each response for presence
      rather than truthiness. */
  function CheckPowerPermissions(api: Api): (r: PowerCheck)
    ensures api.token == "" ==> r == PowerCheck(false, NoTokenMessage)
    ensures api.token != "" && !(Fetch(api, "supervisor/info").Some? && Fetch(api, "supervisor/info").value.status == 200) ==>
      r == PowerCheck(false, CannotAccessMessage)
    ensures api.token != "" && Fetch(api, "supervisor/info").Some? && Fetch(api, "supervisor/info").value.status == 200 ==>
      var host := Fetch(api, "host/info");
      && (host.Some? && host.value.status == 200 ==> r == PowerCheck(true, GrantedMessage))
      && (host.Some? && host.value.status == 403 ==> r == PowerCheck(false, LacksManagerMessage))
      && (!(host.Some? && host.value.status in {200, 403}) ==> r == PowerCheck(false, UnexpectedMessage))
    ensures r.enabled <==> r.message == GrantedMessage
  {
    if api.token == "" then PowerCheck(false, NoTokenMessage)
    else
      var supervisor := Fetch(api, "supervisor/info");
      if supervisor.Some? && supervisor.value.status == 200 then
        var host := Fetch(api, "host/info");
        if host.Some? && host.value.status == 200 then PowerCheck(true, GrantedMessage)
        else if host.Some? && host.value.status == 403 then PowerCheck(false, LacksManagerMessage)
        else PowerCheck(false, UnexpectedMessage)
      else PowerCheck(false, CannotAccessMessage)
  }

  /** The two versions agree everywhere except on a forbidden host
      endpoint. */
  lemma PermissionVersionsAgree(api: Api)
    ensures CheckPowerPermissions(api) != CheckPowerPermissionsAsWritten(api) <==>
      && api.token != ""
      && AnsweredWith(Fetch(api, "supervisor/info"), 200)
      && Fetch(api, "host/info").Some? && Fetch(api, "host/info").value.status == 403
  {
  }

  // ---------------------------------------------------------------------
  // reboot_host and shutdown_host
  // ---------------------------------------------------------------------

  /** A POST to `endpoint` with a 10-second timeout that succeeds on status
      200 or 202. */
  function PowerAction(api: Api, endpoint: string): (r: bool)
    ensures r <==>
      var resp := api.transport(HttpCall(POST, SupervisorBase + endpoint, "Bearer " + api.token, 10));
      resp.Some? && (resp.value.status == 200 || resp.value.status == 202)
  {
    var resp := Request(api, endpoint, "POST", 10).response;
    resp.Some? && resp.value.status in [200, 202]
  }

  /** `reboot_host`. */
  function RebootHost(api: Api): bool {
    PowerAction(api, "host/reboot")
  }

  /** `shutdown_host`. */
  function ShutdownHost(api: Api): bool {
    PowerAction(api, "host/shutdown")
  }

  /** Reboot and shutdown accept exactly statuses 200 and 202; an accepted
      request (202) counts as success even though its response is not
      checked for truthiness, and a missing response is a failure. */
  lemma PowerActionStatuses(api: Api, endpoint: string, status: int, body: Option<Json>)
    requires api.transport(HttpCall(POST, SupervisorBase + endpoint, "Bearer " + api.token, 10)) == Some(Response(status, body))
    ensures PowerAction(api, endpoint) <==> status == 200 || status == 202
  {
  }
}
