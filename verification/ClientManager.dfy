/** The lobby's register of clients (client_manager.cpp): the same clients indexed by openid, by cuid and
    by ccid.  Redis is outside: what it holds or answers comes in as parameters. */
module ClientManagers {
  import opened FastTravelMaps

  const INVALID_CUID: nat := 0
  const FIRST_CUID: nat := 206107
  const OFFLINE_SECONDS: int := 600

  class Client {
    var openid: string
    var cuid: nat
    var ccid: nat
    var name: string
    var token: string
    var imgurl: string
    var ipstr: string
    var sex: int
    var roomid: nat
    /** None while the client is connected. */
    var offlineTime: OfflineTime

    constructor (openid: string, cuid: nat, ccid: nat, name: string, token: string, sex: int, roomid: nat)
      ensures this.openid == openid && this.cuid == cuid && this.ccid == ccid
      ensures this.token == token && this.name == name && this.sex == sex && this.roomid == roomid
    {
      this.openid, this.cuid, this.ccid := openid, cuid, ccid;
      this.name, this.token, this.sex, this.roomid := name, token, sex, roomid;
      imgurl, ipstr, offlineTime := "", "", Epoch;
    }

    ghost function Keys(): Keys
      reads `openid, `cuid, `ccid
    {
      KeysOf(openid, cuid, ccid)
    }

    predicate TimedOut(now: int)
      reads this
    {
      DroppedAt(roomid, offlineTime, now)
    }
  }

  datatype OfflineTime = Epoch | Since(time: int)

  /** The test by which the periodic clean-up picks the clients it drops. */
  predicate DroppedAt(roomid: nat, offline: OfflineTime, now: int) {
    roomid == 0 && offline.Since? && offline.time + OFFLINE_SECONDS > now
  }

  /** What its message says of them: they have been offline too long. */
  predicate OfflineTooLong(roomid: nat, offline: OfflineTime, now: int) {
    roomid == 0 && offline.Since? && now - offline.time > OFFLINE_SECONDS
  }

  /** The two are opposites: of the disconnected clients outside every room, those gone for 600 seconds or more are
      kept and the others dropped, so that test and message agree on a client exactly if it is connected, in a room,
      or gone for 600 seconds to the second. */
  lemma CleanUpMeansItIff(roomid: nat, offline: OfflineTime, now: int)
    ensures DroppedAt(roomid, offline, now) == OfflineTooLong(roomid, offline, now)
       <==> (roomid == 0 && offline.Since? ==> now - offline.time == 600)
    ensures roomid == 0 && offline.Since? ==>
      (!DroppedAt(roomid, offline, now) <==> now - offline.time >= 600)
  {}

  /** Gone for an hour a client is kept, gone for a second it is dropped. */
  lemma CleanUpDropsTheWrongOnes()
    ensures exists offline, soon, late ::
      && !DroppedAt(0, offline, late) && OfflineTooLong(0, offline, late)
      && DroppedAt(0, offline, soon) && !OfflineTooLong(0, offline, soon)
  {
    assert !DroppedAt(0, Since(0), 3600) && OfflineTooLong(0, Since(0), 3600);
    assert DroppedAt(0, Since(0), 1) && !OfflineTooLong(0, Since(0), 1);
  }

  datatype Keys = KeysOf(openid: string, cuid: nat, ccid: nat)

  datatype LoginQuest = LoginQuest(
    openid: string, ccid: nat, verified: bool, name: string, token: string, imgurl: string, ipstr: string, sex: int)

  /** What reading the client's record from the database gave. */
  datatype Record = Unreadable | NoRecord | Stored(client: Client)

  datatype RetCode = RegFailed | TokenExpired | Success

  // ---------------------------------------------------------------- the register as a value

  type Registry = map<Client, Keys>

  /** No registered client has any of these keys. */
  ghost predicate Free(reg: Registry, keys: Keys) {
    forall c | c in reg :: reg[c].openid != keys.openid && reg[c].cuid != keys.cuid && reg[c].ccid != keys.ccid
  }

  ghost predicate Distinct(reg: Registry) {
    forall c, d | c in reg && d in reg && c != d ::
      reg[c].openid != reg[d].openid && reg[c].cuid != reg[d].cuid && reg[c].ccid != reg[d].ccid
  }

  /** A login that gets past the token check: the client leaves the register and comes back under its new
      keys, unless another client has one of them or a needed save fails. */
  ghost function LoggedIn(reg: Registry, client: Client, keys: Keys, saved: bool): Registry {
    var rest := reg - {client};
    if Free(rest, keys) && saved then rest[client := keys] else rest
  }

  lemma LoginUndone(reg: Registry, client: Client, keys: Keys)
    ensures LoggedIn(reg, client, keys, true) - {client} == LoggedIn(reg, client, keys, false)
  {}

  lemma NotYet(reg: Registry, client: Client, keys: Keys)
    requires client !in reg
    ensures LoggedIn(reg, client, keys, true) == if Free(reg, keys) then reg[client := keys] else reg
  {
    assert reg - {client} == reg;
  }

  /** The client a connection id resolves to. */
  ghost predicate Resolves(reg: Registry, ccid: nat, c: Client) { c in reg && reg[c].ccid == ccid }

  /** After a client is replaced by a new connection, its old connection id resolves to nothing exactly
      when the new connection has another id. */
  lemma OldConnectionForgotten(reg: Registry, client: Client, keys: Keys)
    requires Distinct(reg) && client in reg && client in LoggedIn(reg, client, keys, true)
    ensures keys.ccid != reg[client].ccid
       <==> forall c :: !Resolves(LoggedIn(reg, client, keys, true), reg[client].ccid, c)
    ensures forall c :: Resolves(LoggedIn(reg, client, keys, true), keys.ccid, c) <==> c == client
  {
    var after := LoggedIn(reg, client, keys, true);
    assert after[client] == keys;
    assert Resolves(after, keys.ccid, client);
  }

  /** The three indexes are three views of one register. */
  ghost predicate Mirrors<K>(index: map<K, Client>, reg: Registry, key: Keys -> K) {
    && (forall c | c in reg :: key(reg[c]) in index && index[key(reg[c])] == c)
    && (forall k | k in index :: index[k] in reg && key(reg[index[k]]) == k)
  }

  lemma MirrorsAdd<K>(index: map<K, Client>, reg: Registry, key: Keys -> K, client: Client, keys: Keys)
    requires Mirrors(index, reg, key) && client !in reg && key(keys) !in index
    ensures Mirrors(index[key(keys) := client], reg[client := keys], key)
  {}

  lemma MirrorsRemove<K>(index: map<K, Client>, reg: Registry, key: Keys -> K, client: Client)
    requires Mirrors(index, reg, key) && client in reg
    ensures Mirrors(index - {key(reg[client])}, reg - {client}, key)
  {}

  lemma RollBack<K, V>(m: map<K, V>, k: K, v: V)
    requires k !in m
    ensures m[k := v] - {k} == m
  {}

  const ByOpenid := (keys: Keys) => keys.openid
  const ByCuid := (keys: Keys) => keys.cuid
  const ByCcid := (keys: Keys) => keys.ccid

  ghost predicate Mirrored(openids: map<string, Client>, cuids: map<nat, Client>, ccids: map<nat, Client>,
                           reg: Registry)
  {
    Mirrors(openids, reg, ByOpenid) && Mirrors(cuids, reg, ByCuid) && Mirrors(ccids, reg, ByCcid)
  }

  lemma MirroredFree(openids: map<string, Client>, cuids: map<nat, Client>, ccids: map<nat, Client>, reg: Registry,
                     keys: Keys)
    requires Mirrored(openids, cuids, ccids, reg)
    ensures Free(reg, keys) <==> keys.openid !in openids && keys.cuid !in cuids && keys.ccid !in ccids
  {
    forall c | c in reg ensures reg[c].openid in openids && reg[c].cuid in cuids && reg[c].ccid in ccids {
      assert ByOpenid(reg[c]) in openids && ByCuid(reg[c]) in cuids && ByCcid(reg[c]) in ccids;
    }
    if keys.openid in openids { assert reg[openids[keys.openid]].openid == keys.openid; }
    if keys.cuid in cuids { assert reg[cuids[keys.cuid]].cuid == keys.cuid; }
    if keys.ccid in ccids { assert reg[ccids[keys.ccid]].ccid == keys.ccid; }
  }

  lemma MirroredAdd(openids: map<string, Client>, cuids: map<nat, Client>, ccids: map<nat, Client>, reg: Registry,
                    client: Client, keys: Keys)
    requires Mirrored(openids, cuids, ccids, reg) && Free(reg, keys) && (client in reg ==> reg[client] == keys)
    ensures Mirrored(openids[keys.openid := client], cuids[keys.cuid := client], ccids[keys.ccid := client],
                     reg[client := keys])
  {
    MirroredFree(openids, cuids, ccids, reg, keys);
    MirrorsAdd(openids, reg, ByOpenid, client, keys);
    MirrorsAdd(cuids, reg, ByCuid, client, keys);
    MirrorsAdd(ccids, reg, ByCcid, client, keys);
  }

  lemma MirroredRemove(openids: map<string, Client>, cuids: map<nat, Client>, ccids: map<nat, Client>, reg: Registry,
                       client: Client)
    requires Mirrored(openids, cuids, ccids, reg) && client in reg
    ensures Mirrored(openids - {reg[client].openid}, cuids - {reg[client].cuid}, ccids - {reg[client].ccid},
                     reg - {client})
  {
    MirrorsRemove(openids, reg, ByOpenid, client);
    MirrorsRemove(cuids, reg, ByCuid, client);
    MirrorsRemove(ccids, reg, ByCcid, client);
  }

  ghost function Elements(s: seq<Client>): set<Client> { set c | c in s }

  lemma ElementsSnoc(s: seq<Client>, n: nat)
    requires n < |s| && forall i, j | 0 <= i < j < |s| :: s[i] != s[j]
    ensures Elements(s[..n + 1]) == Elements(s[..n]) + {s[n]} && s[n] !in Elements(s[..n])
  {
    assert s[..n + 1] == s[..n] + [s[n]];
  }

  class ClientManager {
    const byOpenid: FastTravelMap<string, Client>
    const byCuid: FastTravelMap<nat, Client>
    const byCcid: FastTravelMap<nat, Client>
    var lastCuid: nat
    ghost var online: set<Client>
    ghost var issued: seq<nat>  // the ids given to new clients so far

    ghost function Registry(): Registry
      reads `online, online`openid, online`cuid, online`ccid
    {
      map c | c in online :: c.Keys()
    }

    ghost predicate Separate()
      reads byOpenid, byCuid, byCcid
    {
      && byCuid != byCcid && (byOpenid as object) != byCuid && (byOpenid as object) != byCcid
      && byOpenid.Valid() && byCuid.Valid() && byCcid.Valid()
    }

    ghost predicate Valid()
      reads `online, online`openid, online`cuid, online`ccid, byOpenid, byCuid, byCcid
    {
      Separate() && Mirrored(byOpenid.Contents(), byCuid.Contents(), byCcid.Contents(), Registry())
    }

    /** No id is given twice, and the next one will be new. */
    ghost predicate IdsDistinct()
      reads `lastCuid, `issued
    {
      && FIRST_CUID <= lastCuid && (forall i | 0 <= i < |issued| :: FIRST_CUID < issued[i] <= lastCuid)
      && forall i, j | 0 <= i < j < |issued| :: issued[i] != issued[j]
    }

    constructor ()
      ensures Valid() && online == {} && Registry() == map[] && lastCuid == FIRST_CUID && issued == []
      ensures IdsDistinct()
      ensures fresh(byOpenid) && fresh(byCuid) && fresh(byCcid)
    {
      byOpenid := new FastTravelMap();
      byCuid := new FastTravelMap();
      byCcid := new FastTravelMap();
      lastCuid, online, issued := FIRST_CUID, {}, [];
    }

    /** The two numbers or neither. */
    method TakeIds(client: Client) returns (ok: bool)
      requires Separate()
      modifies byCuid, byCcid
      ensures Separate()
      ensures ok <==> client.cuid !in old(byCuid.Contents()) && client.ccid !in old(byCcid.Contents())
      ensures byCuid.Contents() == if ok then old(byCuid.Contents())[client.cuid := client] else old(byCuid.Contents())
      ensures byCcid.Contents() == if ok then old(byCcid.Contents())[client.ccid := client] else old(byCcid.Contents())
    {
      ghost var cuids := byCuid.Contents();
      hide Indexed, View, Without, FastTravelMap.Valid, FastTravelMap.Contents;
      ok := byCuid.Insert(client.cuid, client);
      if ok {
        ok := byCcid.Insert(client.ccid, client);
        if !ok {
          byCuid.EraseKey(client.cuid);
          RollBack(cuids, client.cuid, client);
        }
      }
    }

    /** All three keys or none: a collision on a later index undoes the earlier insertions. */
    method TakeKeys(client: Client) returns (ok: bool)
      requires Separate()
      modifies byOpenid, byCuid, byCcid
      ensures Separate()
      ensures ok <==> && client.openid !in old(byOpenid.Contents()) && client.cuid !in old(byCuid.Contents())
                      && client.ccid !in old(byCcid.Contents())
      ensures byOpenid.Contents() ==
        if ok then old(byOpenid.Contents())[client.openid := client] else old(byOpenid.Contents())
      ensures byCuid.Contents() == if ok then old(byCuid.Contents())[client.cuid := client] else old(byCuid.Contents())
      ensures byCcid.Contents() == if ok then old(byCcid.Contents())[client.ccid := client] else old(byCcid.Contents())
    {
      ghost var openids := byOpenid.Contents();
      hide Indexed, View, Without, FastTravelMap.Valid, FastTravelMap.Contents;
      ok := byOpenid.Insert(client.openid, client);
      if ok {
        ok := TakeIds(client);
        if !ok {
          byOpenid.EraseKey(client.openid);
          RollBack(openids, client.openid, client);
        }
      }
    }

    method Insert(client: Client) returns (ok: bool)
      requires Valid()
      modifies this`online, byOpenid, byCuid, byCcid
      ensures Valid()
      ensures ok <==> Free(old(Registry()), client.Keys())
      ensures online == if ok then old(online) + {client} else old(online)
      ensures Registry() == if ok then old(Registry())[client := client.Keys()] else old(Registry())
    {
      hide Mirrored, Free, Indexed, View;
      ghost var reg, keys := Registry(), client.Keys();
      ghost var openids, cuids, ccids := byOpenid.Contents(), byCuid.Contents(), byCcid.Contents();
      MirroredFree(openids, cuids, ccids, reg, keys);
      ok := TakeKeys(client);
      if ok {
        MirroredAdd(openids, cuids, ccids, reg, client, keys);
        online := online + {client};
        assert Registry() == reg[client := keys];
      }
    }

    method Erase(client: Client)
      requires Valid() && client in online
      modifies this`online, byOpenid, byCuid, byCcid
      ensures Valid()
      ensures online == old(online) - {client}
      ensures Registry() == old(Registry()) - {client}
    {
      hide Mirrored, Indexed, View, Without;
      ghost var reg := Registry();
      MirroredRemove(byOpenid.Contents(), byCuid.Contents(), byCcid.Contents(), reg, client);
      byOpenid.EraseKey(client.openid);
      byCuid.EraseKey(client.cuid);
      byCcid.EraseKey(client.ccid);
      online := online - {client};
      assert Registry() == reg - {client};
    }

    method GetByOpenid(openid: string) returns (c: Client?)
      requires Valid()
      ensures c == null <==> forall d | d in online :: d.openid != openid
      ensures c != null ==> c in online && c.openid == openid && forall d | d in online && d.openid == openid :: d == c
    {
      var i := byOpenid.Find(openid);
      c := if i == |byOpenid.vec| then null else byOpenid.vec[i].1;
      OpenidFacts(openid);
    }

    method GetByCcid(ccid: nat) returns (c: Client?)
      requires Valid()
      ensures c == null <==> forall d :: !Resolves(Registry(), ccid, d)
      ensures c != null ==> Resolves(Registry(), ccid, c)
    {
      var i := byCcid.Find(ccid);
      c := if i == |byCcid.vec| then null else byCcid.vec[i].1;
      CcidFacts(ccid);
    }

    lemma OpenidFacts(openid: string)
      requires Valid()
      ensures openid in byOpenid.Contents() ==>
        && byOpenid.Contents()[openid] in online && byOpenid.Contents()[openid].openid == openid
        && forall d | d in online && d.openid == openid :: d == byOpenid.Contents()[openid]
      ensures openid !in byOpenid.Contents() ==> forall d | d in online :: d.openid != openid
    {
      var reg := Registry();
      forall c | c in reg ensures reg[c].openid in byOpenid.Contents() {
        assert ByOpenid(reg[c]) in byOpenid.Contents();
      }
      forall d | d in online ensures d.openid in byOpenid.Contents() && byOpenid.Contents()[d.openid] == d {
        assert byOpenid.Contents()[ByOpenid(reg[d])] == d;
      }
      if openid in byOpenid.Contents() { assert reg[byOpenid.Contents()[openid]].openid == openid; }
    }

    lemma CcidFacts(ccid: nat)
      requires Valid()
      ensures ccid in byCcid.Contents() ==> Resolves(Registry(), ccid, byCcid.Contents()[ccid])
      ensures ccid !in byCcid.Contents() ==> forall d :: !Resolves(Registry(), ccid, d)
    {
      var reg := Registry();
      forall c | c in reg ensures reg[c].ccid in byCcid.Contents() { assert ByCcid(reg[c]) in byCcid.Contents(); }
      if ccid in byCcid.Contents() { assert reg[byCcid.Contents()[ccid]].ccid == ccid; }
    }

    /** Take the next cuid; without a successful save of the counter the client gets the invalid one. */
    method NewCuid(idSaved: bool) returns (cuid: nat)
      requires IdsDistinct()
      modifies `lastCuid, `issued
      ensures IdsDistinct()
      ensures cuid == (if idSaved then old(lastCuid) + 1 else INVALID_CUID)
      ensures lastCuid == old(lastCuid) + if idSaved then 1 else 0
      ensures issued == old(issued) + if idSaved then [cuid] else []
    {
      if !idSaved { return INVALID_CUID; }
      lastCuid := lastCuid + 1;
      issued := issued + [lastCuid];
      return lastCuid;
    }

    /** A client that is not registered may change its keys. */
    method TakeConnection(client: Client, quest: LoginQuest)
      requires Valid() && client !in online
      modifies client`ccid, client`name, client`sex
      ensures Valid() && Registry() == old(Registry())
      ensures client.ccid == quest.ccid && client.name == quest.name && client.sex == quest.sex
    {
      hide Mirrored, Indexed, View;
      client.ccid, client.name, client.sex := quest.ccid, quest.name, quest.sex;
      assert Registry() == old(Registry());
    }

    /** A registered client comes in over a new connection. */
    method Replace(client: Client, quest: LoginQuest) returns (ok: bool)
      requires Valid() && client in online
      modifies `online, byOpenid, byCuid, byCcid, client`token, client`ccid, client`name, client`sex
      ensures Valid()
      ensures client.ccid == quest.ccid && client.token == quest.token
      ensures client.name == quest.name && client.sex == quest.sex
      ensures Registry() == LoggedIn(old(Registry()), client, client.Keys(), true)
      ensures ok <==> client in online
      ensures online == if ok then old(online) else old(online) - {client}
    {
      hide Mirrored, Free, Indexed, View, FastTravelMap.Valid, FastTravelMap.Contents;
      client.token := quest.token;
      Erase(client);
      TakeConnection(client, quest);
      ok := Insert(client);
    }

    /** What a login brings along; the connection id is the one the client is registered under. */
    method TakeDetails(client: Client, quest: LoginQuest)
      requires Valid() && client in online && client.ccid == quest.ccid
      modifies client`token, client`ccid, client`name, client`imgurl, client`ipstr, client`sex
      ensures Valid() && Registry() == old(Registry()) && client.ccid == quest.ccid
      ensures client.token == quest.token && client.name == quest.name && client.sex == quest.sex
      ensures client.imgurl == quest.imgurl && client.ipstr == quest.ipstr
    {
      hide Mirrored, Indexed, View;
      client.token, client.ccid, client.name := quest.token, quest.ccid, quest.name;
      client.imgurl, client.ipstr, client.sex := quest.imgurl, quest.ipstr, quest.sex;
      assert Registry() == old(Registry());
    }

    /** The end of every login that got its client registered; a failed save takes the client out again. */
    method Complete(client: Client, quest: LoginQuest, saved: bool) returns (ok: bool)
      requires Valid() && client in online && client.ccid == quest.ccid
      modifies `online, byOpenid, byCuid, byCcid
      modifies client`token, client`ccid, client`name, client`imgurl, client`ipstr, client`sex, client`offlineTime
      ensures Valid() && client.ccid == quest.ccid
      ensures ok <==> !quest.verified || saved
      ensures online == if ok then old(online) else old(online) - {client}
      ensures Registry() == if ok then old(Registry()) else old(Registry()) - {client}
      ensures client.token == quest.token && client.name == quest.name && client.sex == quest.sex
      ensures client.imgurl == quest.imgurl && client.ipstr == quest.ipstr
      ensures ok ==> client.offlineTime == Epoch
    {
      hide Mirrored, Indexed, View;
      TakeDetails(client, quest);
      if quest.verified && !saved {
        Erase(client);
        return false;
      }
      client.offlineTime := Epoch;
      ok := true;
    }

    /** A client seen for the first time; only a login that the platform verified may create it. */
    method Create(quest: LoginQuest, idSaved: bool) returns (client: Client?)
      requires Valid() && IdsDistinct()
      modifies `online, `lastCuid, `issued, byOpenid, byCuid, byCcid
      ensures Valid() && IdsDistinct()
      ensures var takes := quest.verified && idSaved;
        && lastCuid == old(lastCuid) + (if takes then 1 else 0)
        && issued == old(issued) + if takes then [lastCuid] else []
      ensures var keys := KeysOf(quest.openid, if idSaved then old(lastCuid) + 1 else INVALID_CUID, quest.ccid);
        && (client != null <==> quest.verified && Free(old(Registry()), keys))
        && (client != null ==> fresh(client) && client in online && client.Keys() == keys)
        && (client != null ==> client.token == quest.token)
      ensures Registry() == if client == null then old(Registry()) else old(Registry())[client := client.Keys()]
      ensures online == if client == null then old(online) else old(online) + {client}
    {
      hide Mirrored, Free, Indexed, View;
      if !quest.verified { return null; }
      var cuid := NewCuid(idSaved);
      var roomid: nat := *;
      client := new Client(quest.openid, cuid, quest.ccid, quest.name, quest.token, quest.sex, roomid);
      var ok := Insert(client);
      if !ok { client := null; }
    }

    /** A client read from the database comes back under the new connection. */
    method Return(client: Client, quest: LoginQuest) returns (code: RetCode)
      requires Valid() && client !in online
      modifies `online, byOpenid, byCuid, byCcid, client`token, client`ccid, client`sex
      ensures Valid()
      ensures code == if !quest.verified && quest.token != old(client.token) then TokenExpired
        else if Free(old(Registry()), KeysOf(client.openid, client.cuid, quest.ccid)) then Success else RegFailed
      ensures Registry() == if code == Success then old(Registry())[client := client.Keys()] else old(Registry())
      ensures online == if code == Success then old(online) + {client} else old(online)
      ensures code == Success ==> client.ccid == quest.ccid && client.token == quest.token
    {
      hide Mirrored, Free, Indexed, View;
      if !quest.verified && quest.token != client.token { return TokenExpired; }
      client.token, client.ccid, client.sex := quest.token, quest.ccid, quest.sex;
      var ok := Insert(client);
      code := if ok then Success else RegFailed;
    }

    /** The branch of the login for an openid that is not registered. */
    method Arrive(quest: LoginQuest, record: Record, idSaved: bool) returns (code: RetCode, client: Client?)
      requires Valid() && IdsDistinct()
      requires record.Stored? ==> record.client !in online
      modifies `online, `lastCuid, `issued, byOpenid, byCuid, byCcid, if record.Stored? then {record.client} else {}
      ensures Valid() && IdsDistinct()
      ensures var takes := quest.verified && idSaved && record.NoRecord?;
        && lastCuid == old(lastCuid) + (if takes then 1 else 0)
        && issued == old(issued) + if takes then [lastCuid] else []
      ensures client == null ==> code != Success && Registry() == old(Registry())
      ensures client != null ==>
        && code == Success && client in online && client !in old(online)
        && client.ccid == quest.ccid && client.token == quest.token
        && Registry() == LoggedIn(old(Registry()), client, client.Keys(), true)
      ensures match record
        case Unreadable => client == null && code == RegFailed
        case NoRecord =>
          var keys := KeysOf(quest.openid, if idSaved then old(lastCuid) + 1 else INVALID_CUID, quest.ccid);
          && (client != null <==> quest.verified && Free(old(Registry()), keys))
          && (client != null ==> fresh(client) && client.Keys() == keys)
        case Stored(known) =>
          var keys := KeysOf(old(known.openid), old(known.cuid), quest.ccid);
          if !quest.verified && quest.token != old(known.token) then client == null && code == TokenExpired
          else if Free(old(Registry()), keys) then client == known && client.Keys() == keys
          else client == null && code == RegFailed
    {
      hide Mirrored, Free, Indexed, View;
      ghost var reg := Registry();
      match record
      case Unreadable =>
        code, client := RegFailed, null;
      case NoRecord =>
        client := Create(quest, idSaved);
        if client != null { NotYet(reg, client, client.Keys()); }
        code := if client != null then Success else RegFailed;
      case Stored(known) =>
        code := Return(known, quest);
        NotYet(reg, known, known.Keys());
        client := if code == Success then known else null;
    }

    /** The login handler up to the registration of the client, which is new, known from a record or online already. */
    method Enter(quest: LoginQuest, record: Record, idSaved: bool) returns (code: RetCode, client: Client?)
      requires Valid() && IdsDistinct()
      requires record.Stored? ==> record.client !in online
      modifies `online, `lastCuid, `issued, byOpenid, byCuid, byCcid
      modifies online`token, online`ccid, online`name, online`imgurl, online`ipstr, online`sex, online`offlineTime
      modifies if record.Stored? then {record.client} else {}
      ensures Valid() && IdsDistinct()
      ensures var takes := quest.verified && idSaved && record.NoRecord?
                           && forall d | d in old(online) :: old(d.openid) != quest.openid;
        && lastCuid == old(lastCuid) + (if takes then 1 else 0)
        && issued == old(issued) + if takes then [lastCuid] else []
      ensures client == null ==> Registry() == old(Registry()) && code != Success
      ensures client != null ==>
        && client.ccid == quest.ccid && client.token == quest.token
        && Registry() == LoggedIn(old(Registry()), client, client.Keys(), true)
        && code == if client in Registry() then Success else RegFailed
      ensures forall d | d in old(online) && old(d.openid) == quest.openid ::
        if quest.verified || quest.token == old(d.token)
        then client == d && client.cuid == old(d.cuid) && client.openid == quest.openid
        else client == null && code == TokenExpired
      ensures (forall d | d in old(online) :: old(d.openid) != quest.openid) ==>
        match record
        case Unreadable => client == null && code == RegFailed
        case NoRecord =>
          var keys := KeysOf(quest.openid, if idSaved then old(lastCuid) + 1 else INVALID_CUID, quest.ccid);
          && (client != null <==> quest.verified && Free(old(Registry()), keys))
          && (client != null ==> fresh(client) && client.Keys() == keys)
        case Stored(known) =>
          var keys := KeysOf(old(known.openid), old(known.cuid), quest.ccid);
          if !quest.verified && quest.token != old(known.token) then client == null && code == TokenExpired
          else if Free(old(Registry()), keys) then client == known && client.Keys() == keys
          else client == null && code == RegFailed
      ensures forall c | c in old(online) && c != client :: unchanged(c)
    {
      hide Mirrored, Free, Indexed, View, FastTravelMap.Valid, FastTravelMap.Contents, IdsDistinct;
      client := GetByOpenid(quest.openid);
      if client == null {
        code, client := Arrive(quest, record, idSaved);
      } else {
        if !quest.verified && quest.token != client.token { return TokenExpired, null; }
        var ok := Replace(client, quest);
        code := if ok then Success else RegFailed;
      }
    }

    /** The login handler. `client` is the client that got past every check before it was registered, or
        null when the request was refused without touching the register. */
    method Login(quest: LoginQuest, record: Record, idSaved: bool, saved: bool) returns (code: RetCode, client: Client?)
      requires Valid() && IdsDistinct()
      requires record.Stored? ==> record.client !in online
      modifies `online, `lastCuid, `issued, byOpenid, byCuid, byCcid
      modifies online`token, online`ccid, online`name, online`imgurl, online`ipstr, online`sex, online`offlineTime
      modifies if record.Stored? then {record.client} else {}
      ensures Valid() && IdsDistinct()
      ensures var takes := quest.verified && idSaved && record.NoRecord?
                           && forall d | d in old(online) :: old(d.openid) != quest.openid;
        && lastCuid == old(lastCuid) + (if takes then 1 else 0)
        && issued == old(issued) + if takes then [lastCuid] else []
      ensures client == null ==> Registry() == old(Registry()) && code != Success
      ensures client != null ==>
        && client.ccid == quest.ccid && client.token == quest.token
        && Registry() == LoggedIn(old(Registry()), client, client.Keys(), !quest.verified || saved)
        && code == if client in Registry() then Success else RegFailed
      ensures forall d | d in old(online) && old(d.openid) == quest.openid ::
        if quest.verified || quest.token == old(d.token)
        then client == d && client.cuid == old(d.cuid) && client.openid == quest.openid
        else client == null && code == TokenExpired
      ensures (forall d | d in old(online) :: old(d.openid) != quest.openid) ==>
        match record
        case Unreadable => client == null && code == RegFailed
        case NoRecord =>
          var keys := KeysOf(quest.openid, if idSaved then old(lastCuid) + 1 else INVALID_CUID, quest.ccid);
          && (client != null <==> quest.verified && Free(old(Registry()), keys))
          && (client != null ==> fresh(client) && client.Keys() == keys)
        case Stored(known) =>
          var keys := KeysOf(old(known.openid), old(known.cuid), quest.ccid);
          if !quest.verified && quest.token != old(known.token) then client == null && code == TokenExpired
          else if Free(old(Registry()), keys) then client == known && client.Keys() == keys
          else client == null && code == RegFailed
      ensures forall c | c in old(online) && c != client :: unchanged(c)
      ensures code == Success ==>
        && client.token == quest.token && client.name == quest.name && client.sex == quest.sex
        && client.imgurl == quest.imgurl && client.ipstr == quest.ipstr && client.offlineTime == Epoch
    {
      hide Mirrored, Free, Indexed, View, FastTravelMap.Valid, FastTravelMap.Contents, IdsDistinct;
      code, client := Enter(quest, record, idSaved);
      if code != Success { return; }
      LoginUndone(old(Registry()), client, client.Keys());
      var ok := Complete(client, quest, saved);
      code := if ok then Success else RegFailed;
    }

    /** No two registered clients share an openid, a cuid or a connection id. */
    lemma RegisteredDistinct()
      requires Valid()
      ensures Distinct(Registry())
    {
      var reg := Registry();
      forall c | c in reg
        ensures byOpenid.Contents()[reg[c].openid] == c && byCuid.Contents()[reg[c].cuid] == c
        ensures byCcid.Contents()[reg[c].ccid] == c
      {
        assert byOpenid.Contents()[ByOpenid(reg[c])] == c && byCuid.Contents()[ByCuid(reg[c])] == c
            && byCcid.Contents()[ByCcid(reg[c])] == c;
      }
    }

    lemma CuidEntries()
      requires Valid()
      ensures forall i | 0 <= i < |byCuid.vec| :: byCuid.vec[i].1 in online
      ensures forall i, j | 0 <= i < j < |byCuid.vec| :: byCuid.vec[i].1 != byCuid.vec[j].1
      ensures forall c | c in online :: exists i :: 0 <= i < |byCuid.vec| && byCuid.vec[i].1 == c
    {
      var reg := Registry();
      forall i | 0 <= i < |byCuid.vec| ensures byCuid.vec[i].1 in reg && reg[byCuid.vec[i].1].cuid == byCuid.vec[i].0 {
        assert byCuid.Contents()[byCuid.vec[i].0] == byCuid.vec[i].1;
      }
      forall c | c in online ensures exists i :: 0 <= i < |byCuid.vec| && byCuid.vec[i].1 == c {
        assert byCuid.Contents()[ByCuid(reg[c])] == c;
        assert byCuid.vec[byCuid.index[ByCuid(reg[c])]].1 == c;
      }
    }

    /** The clients to drop: out of every room, and disconnected at a time that with the grace added is
        still ahead of now. */
    method CollectTimedOut(now: int) returns (late: seq<Client>)
      requires Valid()
      ensures forall c :: c in late <==> c in online && c.TimedOut(now)
      ensures forall i, j | 0 <= i < j < |late| :: late[i] != late[j]
    {
      CuidEntries();
      hide Mirrored, Indexed, View;
      late := [];
      var i := 0;
      while i != |byCuid.vec|
        invariant i <= |byCuid.vec|
        invariant forall c :: c in late <==> c.TimedOut(now) && exists j :: 0 <= j < i && byCuid.vec[j].1 == c
        invariant forall a, b | 0 <= a < b < |late| :: late[a] != late[b]
      {
        var client := byCuid.vec[i].1;
        if client.TimedOut(now) { late := late + [client]; }
        i := i + 1;
      }
    }

    /** Erasing one collected client after the other takes out exactly these. */
    method EraseAll(late: seq<Client>)
      requires Valid()
      requires forall c | c in late :: c in online
      requires forall i, j | 0 <= i < j < |late| :: late[i] != late[j]
      modifies `online, byOpenid, byCuid, byCcid
      ensures Valid()
      ensures online == old(online) - Elements(late)
      ensures Registry() == old(Registry()) - Elements(late)
    {
      hide Mirrored, Indexed, View;
      ghost var reg := Registry();
      var n := 0;
      while n < |late|
        invariant n <= |late| && Valid()
        invariant online == old(online) - Elements(late[..n])
        invariant Registry() == reg - Elements(late[..n])
      {
        ElementsSnoc(late, n);
        Erase(late[n]);
        n := n + 1;
      }
      assert late[..n] == late;
    }

    /** The periodic clean-up. */
    method TimerExecAll(now: int)
      requires Valid()
      modifies `online, byOpenid, byCuid, byCcid
      ensures Valid()
      ensures online == set c | c in old(online) && !c.TimedOut(now)
      ensures forall c | c in old(online) && c.roomid == 0 && c.offlineTime.Since? ::
        c in online <==> now - c.offlineTime.time >= 600
      ensures forall c | c in old(online) && (c.roomid != 0 || c.offlineTime.Epoch?) :: c in online
      ensures Registry() == map c | c in old(online) && !c.TimedOut(now) :: old(Registry())[c]
    {
      hide Mirrored, Indexed, View;
      var late := CollectTimedOut(now);
      ghost var reg, gone := Registry(), set c | c in online && c.TimedOut(now);
      assert Elements(late) == gone;
      hide Elements;
      EraseAll(late);
      assert Registry() == reg - gone;
    }
  }
}
