/**
 * `updateCeramicConfig`: make sure the Ceramic node configuration lists a
 * DID under `http-api.admin-dids`, creating the enclosing object and list
 * when missing. Reading, parsing and writing the file are inputs; the
 * update of the parsed value is modelled in full, under the strict-mode
 * rules that make an assignment to a property of a primitive throw.
 */
module CeramicConf {
  import opened Wrappers
  import opened StringOps
  import opened JsonValue

  const HttpApi: string := "http-api"
  const AdminDids: string := "admin-dids"

  /**
   * The admin list after the update: a falsy value becomes `[]`, an array
   * gets the DID pushed unless it `includes` it; a string `includes` by
   * substring and, lacking `push`, throws unless it already contains the
   * DID; anything else has no `includes` and throws. None means a throw.
   */
  function UpdatedAdmins(admins: Option<Json>, did: string): (r: Option<Json>)
    ensures r.Some? ==> Truthy(r)
  {
    var list := if Truthy(admins) then admins.value else JArr([]);
    match list
    case JArr(items) => Some(JArr(if JStr(did) in items then items else items + [JStr(did)]))
    case JStr(s) => if Contains(s, did) then Some(list) else None
    case _ => None
  }

  /** The `http-api` object after the update (None when the update throws). */
  function UpdatedHttpApi(http: Option<Json>, did: string): (r: Option<Json>)
  {
    var api := if Truthy(http) then http.value else JObj([]);
    match api
    case JObj(hs) =>
      var admins := UpdatedAdmins(Get(hs, AdminDids), did);
      if admins.None? then None else Some(JObj(SetMember(hs, AdminDids, admins.value)))
    case JArr(_) => Some(api)
    case _ => None
  }

  /**
   * The configuration after the update. Properties set on an array are not
   * written out by `JSON.stringify`, so an array root, or an array under
   * `http-api`, is written back as it was.
   */
  function UpdatedConfig(conf: Json, did: string): (r: Option<Json>)
    ensures conf.JArr? ==> r == Some(conf)
    ensures !conf.JObj? && !conf.JArr? ==> r.None?
    ensures conf.JObj? && r.Some? ==>
              r.value.JObj? && Get(r.value.members, HttpApi).Some?
              && forall k :: k != HttpApi ==> Get(r.value.members, k) == Get(conf.members, k)
  {
    match conf
    case JObj(ms) =>
      var http := UpdatedHttpApi(Get(ms, HttpApi), did);
      if http.None? then None else Some(JObj(SetMember(ms, HttpApi, http.value)))
    case JArr(_) => Some(conf)
    case _ => None
  }

  /** The admin DIDs a configuration lists: the items of an `http-api.admin-dids` array, or none. */
  function AdminList(conf: Json): seq<Json> {
    match conf
    case JObj(ms) =>
      (match Get(ms, HttpApi)
       case Some(JObj(hs)) =>
         (match Get(hs, AdminDids)
          case Some(JArr(items)) => items
          case _ => [])
       case _ => [])
    case _ => []
  }

  /** The configuration shapes the script is written for: an object whose `http-api` and `admin-dids` are missing, falsy, or an object and an array. */
  predicate WellShaped(conf: Json) {
    conf.JObj?
    && var http := Get(conf.members, HttpApi);
       (!Truthy(http) || (http.value.JObj?
         && var admins := Get(http.value.members, AdminDids);
            (!Truthy(admins) || admins.value.JArr?)))
  }

  /**
   * On a well-shaped configuration the update succeeds; the DID is appended
   * exactly when it is not listed yet, the listed DIDs keep their order,
   * every other top-level member is untouched, and so is every other member
   * of an existing `http-api` object.
   */
  lemma UpdateAppendsOnce(conf: Json, did: string)
    requires WellShaped(conf)
    ensures UpdatedConfig(conf, did).Some?
    ensures var r := UpdatedConfig(conf, did).value;
            && r.JObj?
            && AdminList(r) == AdminList(conf) + (if JStr(did) in AdminList(conf) then [] else [JStr(did)])
            && JStr(did) in AdminList(r)
            && (forall k :: k != HttpApi ==> Get(r.members, k) == Get(conf.members, k))
            && Keys(r.members) == if HttpApi in Keys(conf.members) then Keys(conf.members) else Keys(conf.members) + [HttpApi]
    ensures Truthy(Get(conf.members, HttpApi)) ==>
              var r := UpdatedConfig(conf, did).value;
              var newHttp := Get(r.members, HttpApi);
              && newHttp.Some? && newHttp.value.JObj?
              && forall k :: k != AdminDids ==> Get(newHttp.value.members, k) == Get(Get(conf.members, HttpApi).value.members, k)
  {
    var ms := conf.members;
    GetDefinedIffKey(ms, HttpApi);
    var http := Get(ms, HttpApi);
    var api := if Truthy(http) then http.value else JObj([]);
    var hs := api.members;
    var admins := Get(hs, AdminDids);
    var list := if Truthy(admins) then admins.value.items else [];
    assert AdminList(conf) == list;
    var newAdmins := JArr(if JStr(did) in list then list else list + [JStr(did)]);
    assert UpdatedAdmins(admins, did) == Some(newAdmins);
    var newApi := JObj(SetMember(hs, AdminDids, newAdmins));
    assert UpdatedHttpApi(http, did) == Some(newApi);
  }

  /** A well-shaped configuration stays well-shaped. */
  lemma UpdateKeepsShape(conf: Json, did: string)
    requires WellShaped(conf)
    ensures UpdatedConfig(conf, did).Some? && WellShaped(UpdatedConfig(conf, did).value)
  {
    UpdateAppendsOnce(conf, did);
  }

  /** Running the script twice with the same DID changes nothing the second time. */
  lemma UpdateIdempotent(conf: Json, did: string)
    requires WellShaped(conf)
    ensures UpdatedConfig(conf, did).Some?
    ensures UpdatedConfig(UpdatedConfig(conf, did).value, did) == UpdatedConfig(conf, did)
  {
    UpdateAppendsOnce(conf, did);
    var r := UpdatedConfig(conf, did).value;
    var ms := r.members;
    var http := Get(ms, HttpApi);
    assert http.Some? && http.value.JObj?;
    var hs := http.value.members;
    var admins := Get(hs, AdminDids);
    assert admins.Some? && admins.value.JArr? && JStr(did) in admins.value.items;
    assert UpdatedAdmins(admins, did) == admins;
    SetMemberSame(hs, AdminDids, admins.value);
    assert UpdatedHttpApi(http, did) == http;
    SetMemberSame(ms, HttpApi, http.value);
  }

  /**
   * The script: read, parse, update the parsed object step by step in
   * place, write. It answers true after writing and false when reading,
   * parsing, updating or writing fails; `written` is what was handed to
   * `JSON.stringify`.
   */
  method UpdateCeramicConfig(fileText: Option<string>, parse: string -> Option<Json>, did: string, writeSucceeds: bool)
    returns (ok: bool, written: Option<Json>)
    ensures fileText.None? || parse(fileText.value).None? ==> !ok && written.None?
    ensures fileText.Some? && parse(fileText.value).Some? ==>
              written == UpdatedConfig(parse(fileText.value).value, did)
              && (ok <==> written.Some? && writeSucceeds)
  {
    if fileText.None? {
      return false, None;
    }
    var parsed := parse(fileText.value);
    if parsed.None? {
      return false, None;
    }
    var ceramicConf := parsed.value;
    if ceramicConf.JArr? {
      return writeSucceeds, Some(ceramicConf);
    }
    if !ceramicConf.JObj? {
      return false, None;
    }
    var ms := ceramicConf.members;
    ghost var ms0 := ms;
    if !Truthy(Get(ms, HttpApi)) {
      ms := SetMember(ms, HttpApi, JObj([]));
    }
    var api := Get(ms, HttpApi).value;
    if api.JArr? {
      // `admin-dids` lands on the array as a property JSON.stringify drops.
      SetMemberSame(ms0, HttpApi, api);
      return writeSucceeds, Some(ceramicConf);
    }
    if !api.JObj? {
      return false, None;
    }
    var hs := api.members;
    ghost var hs0 := hs;
    if !Truthy(Get(hs, AdminDids)) {
      hs := SetMember(hs, AdminDids, JArr([]));
    }
    var admins := Get(hs, AdminDids).value;
    if admins.JArr? {
      if JStr(did) !in admins.items {
        SetMemberTwice(hs0, AdminDids, JArr([]), JArr(admins.items + [JStr(did)]));
        hs := SetMember(hs, AdminDids, JArr(admins.items + [JStr(did)]));
      } else {
        SetMemberSame(hs, AdminDids, admins);
        SetMemberTwice(hs0, AdminDids, JArr([]), admins);
      }
    } else if admins.JStr? && Contains(admins.s, did) {
      SetMemberSame(hs0, AdminDids, admins);
    } else {
      return false, None;
    }
    assert UpdatedHttpApi(Get(ms0, HttpApi), did) == Some(JObj(hs));
    SetMemberTwice(ms0, HttpApi, JObj([]), JObj(hs));
    ms := SetMember(ms, HttpApi, JObj(hs));
    written := Some(JObj(ms));
    ok := writeSucceeds;
  }
}
