/** The address table and the offers agree with the client contexts after every step. */
module BrokerRegistry {
  import opened Options
  import opened Selectors
  import opened Offers
  import opened Services
  import opened Broker
  import opened Mailboxes
  import StreamNet
  import StreamSafety

  predicate Owns(cl: Client, address: string) {
    cl.phase == StreamNet.Connected && cl.address == Some(address)
  }

  /** The table maps each non-empty address to its one connected owner; no zombie has an address left
      that its later freeing could evict. */
  predicate Registry(clients: map<Ptr, Client>, table: map<string, Ptr>) {
    && (forall a :: a in table ==> a != "" && table[a] in clients && Owns(clients[table[a]], a))
    && (forall c :: c in clients && clients[c].phase == StreamNet.Connected ==>
          clients[c].address.Some? && (clients[c].address.value != "" ==>
            clients[c].address.value in table && table[clients[c].address.value] == c))
    && (forall c :: c in clients && clients[c].phase == StreamNet.Zombie ==>
          clients[c].address == None || clients[c].address == Some(""))
    && (forall c :: c in clients && clients[c].phase == StreamNet.Start ==> clients[c].address == None)
  }

  predicate OffersLive(clients: map<Ptr, Client>, services: map<string, Service>) {
    forall name, o :: name in services && o in services[name].offers ==>
      o.client in clients && clients[o.client].phase == StreamNet.Connected
  }

  /** Steps that touch no phase and no address, or free a zombie, leave both as they are. */
  lemma FacesSame(clients: map<Ptr, Client>, r: map<Ptr, Client>, table: map<string, Ptr>, services: map<string, Service>)
    requires Registry(clients, table) && OffersLive(clients, services)
    requires forall c :: c in r ==> c in clients && r[c].phase == clients[c].phase && r[c].address == clients[c].address
    requires forall c :: c in clients && c !in r ==> clients[c].phase == StreamNet.Zombie
    ensures Registry(r, table) && OffersLive(r, services)
  {
  }

  lemma ConnectKeeps(clients: map<Ptr, Client>, c: Ptr, table: map<string, Ptr>, services: map<string, Service>)
    requires Registry(clients, table) && OffersLive(clients, services) && c !in clients
    ensures Registry(clients[c := StreamNet.NEW_CLIENT], table) && OffersLive(clients[c := StreamNet.NEW_CLIENT], services)
  {
  }

  /** Departure removes exactly the client's own entry and offers. */
  lemma DepartKeeps(b: Broker, c: Ptr)
    requires Registry(b.net.clients, b.table) && OffersLive(b.net.clients, b.services)
    requires StreamNet.Shape(b.net) && c in b.net.clients && b.net.clients[c].phase != StreamNet.Zombie
    ensures var r := Depart(b, c);
            && Registry(r.net.clients, r.table) && OffersLive(r.net.clients, r.services)
            && r.table == Evict(b.table, b.net.clients[c].address)
            && (c in r.net.clients ==> r.net.clients[c].phase == StreamNet.Zombie)
            && (forall d :: d != c ==> (d in r.net.clients <==> d in b.net.clients))
            && (forall d :: d != c && d in b.net.clients ==> r.net.clients[d] == b.net.clients[d])
  {
    DepartKeepsRegistry(b.net.clients, c, b.table);
    assert StreamNet.Terminate(b.net, c).clients == Departed(b.net.clients, c);
    WithdrawnOffersLive(b.net.clients, c, b.services);
  }

  function Departed(clients: map<Ptr, Client>, c: Ptr): map<Ptr, Client>
    requires c in clients
  {
    StreamNet.Drop(clients[c := StreamNet.Deregistered(clients[c])], c)
  }

  lemma DepartKeepsRegistry(clients: map<Ptr, Client>, c: Ptr, table: map<string, Ptr>)
    requires Registry(clients, table) && c in clients && clients[c].phase != StreamNet.Zombie
    ensures var t := Evict(table, clients[c].address);
            && Registry(Departed(clients, c), t)
            && Evict(t, StreamNet.Deregistered(clients[c]).address) == t
  {
  }

  lemma WithdrawnOffersLive(clients: map<Ptr, Client>, c: Ptr, services: map<string, Service>)
    requires OffersLive(clients, services) && c in clients
    ensures OffersLive(Departed(clients, c), WithoutOffersOf(services, c))
  {
    var r := WithoutOffersOf(services, c);
    forall name, o | name in r && o in r[name].offers
      ensures o.client in Departed(clients, c) && Departed(clients, c)[o.client].phase == StreamNet.Connected
    {
      assert o in services[name].offers && o.client != c;
    }
  }

  /** Whoever opens an address becomes its one owner; the previous owner has left. */
  lemma OpenKeeps(clients: map<Ptr, Client>, c: Ptr, address: string, table: map<string, Ptr>, services: map<string, Service>)
    requires Registry(clients, table) && OffersLive(clients, services)
    requires c in clients && clients[c].phase == StreamNet.Start && address !in table
    ensures var r := clients[c := clients[c].(phase := StreamNet.Connected, address := Some(address))];
            Registry(r, if address != "" then table[address := c] else table) && OffersLive(r, services)
  {
  }

  lemma RegisterKeeps(b: Broker, c: Ptr, address: string)
    requires Registry(b.net.clients, b.table) && OffersLive(b.net.clients, b.services)
    requires StreamNet.Shape(b.net) && AllExact(b.boxes) && c in b.net.clients && b.net.clients[c].phase == StreamNet.Start
    ensures address in b.table ==> b.table[address] in b.net.clients && b.table[address] != c
    ensures var r := Register(b, c, address);
            && Registry(r.net.clients, r.table) && OffersLive(r.net.clients, r.services)
            && (address != "" ==> address in r.table && r.table[address] == c)
            && (forall a :: a in b.table && a != address ==> a in r.table && r.table[a] == b.table[a])
            && (forall a :: a in r.table && a != address ==> a in b.table)
  {
    if address != "" && address in b.table {
      DepartKeeps(b, b.table[address]);
      var e := Depart(b, b.table[address]);
      OpenKeeps(e.net.clients, c, address, e.table, e.services);
    } else {
      OpenKeeps(b.net.clients, c, address, b.table, b.services);
    }
  }

  /** A zombie that is freed later evicts nobody, whoever owns its old address by then. */
  lemma ForwardKeeps(b: Broker, s: nat)
    requires Registry(b.net.clients, b.table) && OffersLive(b.net.clients, b.services)
    requires StreamNet.Shape(b.net) && s < |b.net.streams| && b.net.streams[s].out != []
    requires b.net.streams[s].out[0].client in b.net.clients
    ensures var r := Forwarded(b, s); r.table == b.table && Registry(r.net.clients, r.table) && OffersLive(r.net.clients, r.services)
  {
    FacesSame(b.net.clients, Forwarded(b, s).net.clients, b.table, b.services);
  }

  /** A new offer comes from a connected client. */
  lemma OfferKeeps(clients: map<Ptr, Client>, services: map<string, Service>, name: string, s: Service, o: Offer)
    requires OffersLive(clients, services) && o.client in clients && clients[o.client].phase == StreamNet.Connected
    requires multiset(s.offers) == multiset(ServiceOf(services, name).offers + [o])
    ensures OffersLive(clients, services[name := s])
  {
    var r := services[name := s];
    forall n, p | n in r && p in r[n].offers ensures p.client in clients && clients[p.client].phase == StreamNet.Connected {
      if n == name {
        assert p in multiset(s.offers);
        assert p in ServiceOf(services, name).offers || p == o;
      }
    }
  }

  /** Offers that only change places stay live. */
  lemma OffersPermuted(clients: map<Ptr, Client>, services: map<string, Service>, name: string, s: Service)
    requires OffersLive(clients, services)
    requires multiset(s.offers) == multiset(ServiceOf(services, name).offers)
    ensures OffersLive(clients, services[name := s])
  {
    var r := services[name := s];
    forall n, p | n in r && p in r[n].offers ensures p.client in clients && clients[p.client].phase == StreamNet.Connected {
      if n == name {
        assert p in multiset(s.offers);
        assert p in ServiceOf(services, name).offers;
      }
    }
  }
}
