/** The server's handlers for sessions and streams (src/mlm_server.c), proved against StreamNet and
    Broker. Client contexts are entries of a table by address, so that freeing one is visible. */
module Servers {
  import opened Messages
  import opened Options
  import opened Selectors
  import opened StreamNet
  import opened Offers
  import opened Services
  import opened ServiceClasses
  import opened ZLists
  import Broker

  class Server {
    const heap: MsgHeap
    var clients: map<Ptr, Client>
    var names: map<string, nat>
    var streams: seq<Stream>
    var table: map<string, Ptr>
    var offers: map<string, ZList<Offer>>        // the offers of each service
    ghost var owners: map<ZList<Offer>, string>  // the service of each list, so that no two share one
    var slots: map<Ptr, Message>                 // the clients whose `msg` field is set
    var sent: seq<Out>                           // what has been sent as STREAM DELIVER

    function View(): Net
      reads this
    {
      Net(clients, names, streams)
    }

    ghost predicate Valid()
      reads this, owners.Keys
    {
      && Shape(View())
      && (forall name :: name in offers ==>
            offers[name] in owners && owners[offers[name]] == name && offers[name].Valid())
    }

    constructor (heap: MsgHeap)
      ensures Valid() && View() == INITIAL && table == map[] && offers == map[] && this.heap == heap
      ensures slots == map[] && sent == []
    {
      this.heap := heap;
      clients, names, streams, table, offers, owners := map[], map[], [], map[], map[], map[];
      slots, sent := map[], [];
    }

    /** s_stream_require. */
    method RequireStream(name: string) returns (s: nat)
      requires Shape(View())
      modifies this`names, this`streams
      ensures (View(), s) == Require(old(View()), name)
    {
      if name !in names {
        names := names[name := |streams|];
        streams := streams + [EMPTY_STREAM];
      }
      s := names[name];
    }

    /** store_stream_writer. */
    method StoreStreamWriter(c: Ptr, name: string)
      requires Shape(View()) && c in clients
      modifies this`names, this`streams, this`clients
      ensures View() == StoreWriter(old(View()), c, name)
    {
      var s := RequireStream(name);
      clients := clients[c := clients[c].(writer := Some(s))];
    }

    /** Sends a command to a stream's actor. */
    method Send(s: nat, cmd: Cmd)
      requires s < |streams|
      modifies this`streams
      ensures streams == Push(old(streams), s, cmd)
    {
      streams := streams[s := streams[s].(cmd := streams[s].cmd + [cmd])];
    }

    /** store_stream_reader: one reader entry, one COMPILE and one reference. */
    method StoreStreamReader(c: Ptr, name: string, pattern: string)
      requires Shape(View()) && c in clients
      modifies this`names, this`streams, this`clients
      ensures View() == StoreReader(old(View()), c, name, pattern)
    {
      var s := RequireStream(name);
      clients := clients[c := clients[c].(readers := clients[c].readers + [s])];
      Send(s, Compile(c, pattern));
      clients := clients[c := clients[c].(refcount := clients[c].refcount + 1)];
    }

    /** cancel_stream_reader. */
    method CancelStreamReader(c: Ptr, name: string)
      requires Shape(View()) && c in clients
      modifies this`names, this`streams, this`clients
      ensures View() == CancelReader(old(View()), c, name)
    {
      var s := RequireStream(name);
      Send(s, Cancel(c));
      if clients[c].readers != [] {
        clients := clients[c := clients[c].(readers := clients[c].readers[1..])];
      }
    }

    /** write_message_to_stream, for a client with a writer: a new message enters the stream's pipe. */
    method WriteMessageToStream(c: Ptr, m: Message)
      requires Shape(View()) && c in clients && clients[c].writer.Some? && m !in heap.refs
      modifies this`streams, heap
      ensures View() == Publish(old(View()), c, m) && heap.refs == old(heap.refs) + multiset{m}
    {
      var s := clients[c].writer.value;
      heap.New(m);
      streams := streams[s := streams[s].(pub := streams[s].pub + [Pub(c, m)])];
    }

    /** The first loop of deregister_the_client: one CANCEL per reader entry. */
    method CancelSubscriptions(c: Ptr)
      requires Shape(View()) && c in clients
      modifies this`clients, this`streams
      ensures clients == old(clients)[c := old(clients)[c].(readers := [])]
      ensures streams == CancelEach(old(streams), old(clients)[c].readers, c)
    {
      while clients[c].readers != []
        invariant Shape(View()) && c in clients && |streams| == |old(streams)|
        invariant clients == old(clients)[c := old(clients)[c].(readers := clients[c].readers)]
        invariant CancelEach(streams, clients[c].readers, c) == CancelEach(old(streams), old(clients)[c].readers, c)
        decreases |clients[c].readers|
      {
        var s := clients[c].readers[0];
        assert forall i :: 0 <= i < |clients[c].readers[1..]| ==> clients[c].readers[1..][i] == clients[c].readers[i + 1];
        clients := clients[c := clients[c].(readers := clients[c].readers[1..])];
        Send(s, Cancel(c));
      }
    }

    /** The second loop of deregister_the_client: every service loses the client's offers. */
    method CancelAllOffers(c: Ptr)
      requires Valid()
      modifies owners.Keys
      ensures Valid()
      ensures forall name :: name in offers ==> offers[name].items == Withdrawn(old(offers[name].items), c)
    {
      var todo := offers.Keys;
      while todo != {}
        invariant Valid() && todo <= offers.Keys
        invariant forall name :: name in offers ==>
                    offers[name].items == if name in todo then old(offers[name].items) else Withdrawn(old(offers[name].items), c)
        decreases todo
      {
        var name :| name in todo;
        DeleteOffers(offers[name], c);
        todo := todo - {name};
      }
    }

    /** Leaving the address table; its destructor frees and clears the client's own address. */
    method Unregister(c: Ptr)
      requires c in clients
      modifies this`table, this`clients
      ensures table == Broker.Evict(old(table), old(clients)[c].address)
      ensures clients == old(clients)[c := old(clients)[c].(
                address := if old(clients)[c].address == Some("") then Some("") else None)]
    {
      var address := clients[c].address;
      if address.Some? && address.value != "" {
        table := table - {address.value};
        clients := clients[c := clients[c].(address := None)];
      } else {
        assert clients[c].(address := address) == clients[c];
      }
    }

    /** A client that has not opened its connection reads and offers nothing. */
    ghost predicate NothingBeforeOpen(c: Ptr)
      requires c in clients
      reads this, offers.Values
    {
      clients[c].address == None ==>
        clients[c].readers == [] && forall name :: name in offers ==> Withdrawn(offers[name].items, c) == offers[name].items
    }

    /** deregister_the_client. */
    method Deregister(c: Ptr)
      requires Valid() && c in clients && NothingBeforeOpen(c)
      modifies this`clients, this`streams, this`table, owners.Keys
      ensures clients == old(clients)[c := Deregistered(old(clients)[c])]
      ensures streams == CancelEach(old(streams), old(clients)[c].readers, c)
      ensures table == Broker.Evict(old(table), old(clients)[c].address)
      ensures forall name :: name in offers ==> offers[name].items == Withdrawn(old(offers[name].items), c)
    {
      if clients[c].address.Some? {
        CancelSubscriptions(c);
        CancelAllOffers(c);
        Unregister(c);
      } else {
        assert clients[c] == Deregistered(clients[c]);
      }
    }

    /** deregister_the_client, then the end of the session: the context is freed when nothing refers to
        it any more, which runs client_terminate, and otherwise kept as a zombie. */
    method EndSession(c: Ptr)
      requires Valid() && c in clients && NothingBeforeOpen(c)
      modifies this`clients, this`streams, this`table, owners.Keys
      ensures View() == Terminate(old(View()), c)
      ensures var t := Broker.Evict(old(table), old(clients)[c].address);
              table == if old(clients)[c].refcount == 0 then Broker.Evict(t, Deregistered(old(clients)[c]).address) else t
      ensures forall name :: name in offers ==> offers[name].items == Withdrawn(old(offers[name].items), c)
    {
      Deregister(c);
      if clients[c].refcount == 0 {
        Finalize(c);
      } else {
        clients := clients[c := clients[c].(phase := Zombie)];
      }
    }

    /** register_new_client: an existing owner of the address is expired first. */
    method RegisterNewClient(c: Ptr, address: string)
      requires Valid() && c in clients
      requires address in table ==> table[address] in clients && table[address] != c && NothingBeforeOpen(table[address])
      modifies this`clients, this`streams, this`table, owners.Keys
      ensures address == "" || address !in old(table) ==>
                && View() == Broker.OpenNet(old(View()), c, address)
                && table == if address == "" then old(table) else old(table)[address := c]
      ensures address != "" && address in old(table) ==>
                && View() == Broker.OpenNet(Terminate(old(View()), old(table)[address]), c, address)
                && (old(clients)[old(table)[address]].address == Some(address) ==> table == old(table)[address := c])
                && forall name :: name in offers ==> offers[name].items == Withdrawn(old(offers[name].items), old(table)[address])
    {
      if address != "" {
        if address in table {
          EndSession(table[address]);
        }
        table := table[address := c];
      }
      clients := clients[c := clients[c].(phase := Connected, address := Some(address))];
    }

    /** write_message_to_stream: without a writer the exception event ends the session. */
    method SendToStream(c: Ptr, m: Message)
      requires Valid() && c in clients && NothingBeforeOpen(c) && m !in heap.refs
      modifies this`clients, this`streams, this`table, owners.Keys, heap
      ensures if old(clients)[c].writer.Some? then
                View() == Publish(old(View()), c, m) && heap.refs == old(heap.refs) + multiset{m} && table == old(table)
              else
                View() == Terminate(old(View()), c) && heap.refs == old(heap.refs)
    {
      if clients[c].writer.Some? {
        WriteMessageToStream(c, m);
      } else {
        EndSession(c);
      }
    }

    /** s_client_finalize: client_terminate takes a remaining non-empty address out of the table. */
    method Finalize(c: Ptr)
      requires c in clients
      modifies this`clients, this`table
      ensures clients == old(clients) - {c} && table == Broker.Evict(old(table), old(clients)[c].address)
    {
      var address := clients[c].address;
      if address.Some? && address.value != "" {
        table := table - {address.value};
      }
      clients := clients - {c};
    }

    /** get_message_to_deliver and the send: the slot is emptied and its reference dropped. */
    method StreamMessageEvent(c: Ptr)
      requires c in slots && slots[c] in heap.refs
      modifies this`slots, this`sent, heap
      ensures slots == old(slots) - {c} && sent == old(sent) + [Deliver(c, old(slots)[c])]
      ensures heap.refs == old(heap.refs) - multiset{old(slots)[c]}
    {
      var m := slots[c];
      sent := sent + [Deliver(c, m)];
      heap.Unlink(m);
      slots := slots - {c};
    }

    /** s_forward_stream_traffic: a delivery goes through the slot of its client, which is empty before and after. */
    method ForwardStreamTraffic(s: nat)
      requires Shape(View()) && s < |streams| && streams[s].out != [] && streams[s].out[0].client in clients
      requires streams[s].out[0].Deliver? ==> streams[s].out[0].msg in heap.refs
      requires slots == map[]
      modifies this`clients, this`streams, this`table, this`slots, this`sent, heap
      ensures View() == Forward(old(View()), s) && slots == map[]
      ensures var o := old(streams)[s].out[0];
              && table == (if o.client in clients then old(table) else Broker.Evict(old(table), old(clients)[o.client].address))
              && heap.refs == (if o.Deliver? then old(heap.refs) - multiset{o.msg} else old(heap.refs))
              && sent == old(sent) + if o.Deliver? && old(clients)[o.client].phase != Zombie then [o] else []
    {
      var o := streams[s].out[0];
      streams := streams[s := streams[s].(out := streams[s].out[1..])];
      match o
      case Ack(c) =>
        // engine_client_put
        clients := clients[c := clients[c].(refcount := clients[c].refcount - 1)];
        if clients[c].refcount == 0 && clients[c].phase == Zombie {
          Finalize(c);
        }
      case Deliver(c, m) =>
        if clients[c].phase == Zombie {
          heap.Unlink(m);
        } else {
          slots := slots[c := m];
          StreamMessageEvent(c);
        }
    }
  }
}
