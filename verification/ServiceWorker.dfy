/** The worker's module-level maps and counters, updated in place by the calls and by the settlements
    of their awaits; each method takes exactly the step `ServiceManager` describes. */
module ServiceWorker {
  import opened ServiceRegistry
  import opened ServiceManager

  class ServiceWorker {
    var services: map<string, nat>
    var serviceHandles: map<nat, nat>
    var nextServiceHandle: nat
    var servicesInstantiating: set<string>
    var records: seq<Record>           // every record object ever created
    var joins: map<nat, Flight>        // suspended calls of servicesJoin
    var nextJoin: nat

    ghost function Snapshot(): Manager
      reads this
    {
      Manager(Table(services, serviceHandles, nextServiceHandle, records), servicesInstantiating, joins, nextJoin)
    }

    ghost predicate Valid()
      reads this
    {
      Inv(Snapshot().table)
    }

    constructor ()
      ensures Valid() && Fresh(Snapshot())
    {
      services, serviceHandles, nextServiceHandle := map[], map[], 1;
      servicesInstantiating, records, joins, nextJoin := {}, [], map[], 0;
    }

    method RemoveService(key: string)
      requires Linked(Snapshot().table)
      modifies this`services, this`serviceHandles
      ensures Snapshot().table == Dropped(old(Snapshot().table), key)
    {
      if key in services {
        var users := records[services[key]].users;
        var todo := users;
        while todo != {}
          invariant todo <= users && services == old(services)
          invariant serviceHandles == old(serviceHandles) - (users - todo)
          decreases |todo|
        {
          var h :| h in todo;
          serviceHandles := serviceHandles - {h};
          todo := todo - {h};
        }
        assert users - todo == users;
        services := services - {key};
      }
    }

    /** The common tail of a join. */
    method HandOut(rid: nat) returns (handle: nat)
      requires Linked(Snapshot().table) && rid < |records|
      modifies this`serviceHandles, this`nextServiceHandle, this`records
      ensures Snapshot().table == Attached(old(Snapshot().table), rid) && handle == old(nextServiceHandle)
    {
      handle := nextServiceHandle;
      nextServiceHandle := nextServiceHandle + 1;
      serviceHandles := serviceHandles[handle := rid];
      var svc := records[rid];
      records := records[rid := svc.(users := svc.users + {handle}, refcount := svc.refcount + 1)];
    }

    /** servicesJoin up to its first await or its return. */
    method ServicesJoin(hashHex: string, name: string, url: string) returns (r: Reply)
      requires Valid()
      modifies this
      ensures Valid() && (Snapshot(), r) == Act(old(Snapshot()), Join(hashHex, name, url))
    {
      NextInv(Snapshot(), Join(hashHex, name, url));
      if hashHex == "" { return Failed; }
      var key := ServiceKey(hashHex, name);
      if key in servicesInstantiating { return LoopError; }
      if key in services {
        var handle := HandOut(services[key]);
        return Handle(handle);
      }
      joins := joins[nextJoin := Flight(hashHex, name, url, Cache)];
      nextJoin := nextJoin + 1;
      return Pending(nextJoin - 1);
    }

    /** The bytes have arrived, from the cache or the network. */
    method BeginCompile(j: nat, f: Flight)
      modifies this`joins, this`servicesInstantiating
      ensures Snapshot() == Compiling(old(Snapshot()), j, f)
    {
      servicesInstantiating := servicesInstantiating + {ServiceKey(f.hashHex, f.name)};
      joins := joins[j := f.(at := Compile)];
    }

    method Close(j: nat, f: Flight)
      modifies this`joins, this`servicesInstantiating
      ensures Snapshot() == Closed(old(Snapshot()), j, f)
    {
      servicesInstantiating := servicesInstantiating - {ServiceKey(f.hashHex, f.name)};
      joins := joins - {j};
    }

    /** Initialise, register, and attach the joining caller. */
    method Install(f: Flight, exits: bool) returns (handle: nat)
      requires Linked(Snapshot().table)
      modifies this`services, this`serviceHandles, this`nextServiceHandle, this`records
      ensures Snapshot().table == Installed(old(Snapshot().table), f, exits) && handle == old(nextServiceHandle)
    {
      var key := ServiceKey(f.hashHex, f.name);
      if exits { RemoveService(key); }
      services := services[key := |records|];
      records := records + [Record(f.hashHex, f.name, f.url, 0, {})];
      handle := HandOut(|records| - 1);
    }

    /** servicesJoin from the settlement of one await to the next await or its return. */
    method Resume(j: nat, outcome: Outcome, exits: bool) returns (r: Reply)
      requires Valid()
      modifies this
      ensures Valid() && (Snapshot(), r) == Act(old(Snapshot()), Settle(j, outcome, exits))
    {
      NextInv(Snapshot(), Settle(j, outcome, exits));
      if j !in joins { return NoReply; }
      var f := joins[j];
      if f.at == Cache {
        if outcome == Good {
          BeginCompile(j, f);
          return NoReply;
        }
        if outcome == Throws || f.url == "" {
          joins := joins - {j};
          return Failed;
        }
        joins := joins[j := f.(at := Fetch)];
        return NoReply;
      }
      if f.at != Compile && f.at != Instantiate {
        if outcome != Good {
          joins := joins - {j};
          return Failed;
        }
        if f.at == Store {
          BeginCompile(j, f);
        } else {
          joins := joins[j := f.(at := if f.at == Fetch then Body else if f.at == Body then Digest else Store)];
        }
        return NoReply;
      }
      if outcome != Good {
        Close(j, f);
        return Failed;
      }
      if f.at == Compile {
        joins := joins[j := f.(at := Instantiate)];
        return NoReply;
      }
      var handle := Install(f, exits);
      Close(j, f);
      return Handle(handle);
    }

    /** The handle leaves the map and its record. */
    method Detach(handle: nat) returns (svc: Record)
      requires Linked(Snapshot().table) && handle in serviceHandles
      modifies this`serviceHandles, this`records
      ensures Snapshot().table == Detached(old(Snapshot().table), handle)
      ensures svc == records[old(serviceHandles[handle])]
    {
      var rid := serviceHandles[handle];
      serviceHandles := serviceHandles - {handle};
      svc := records[rid];
      svc := svc.(users := svc.users - {handle}, refcount := svc.refcount - 1);
      records := records[rid := svc];
    }

    method ServicesRelease(handle: nat) returns (ok: bool)
      requires Valid()
      modifies this`services, this`serviceHandles, this`records
      ensures Valid() && (Snapshot(), Released(ok)) == Act(old(Snapshot()), Release(handle))
    {
      FreedInv(Snapshot().table, handle);
      if handle !in serviceHandles { return false; }
      var svc := Detach(handle);
      if svc.refcount <= 0 { RemoveService(ServiceKey(svc.hashHex, svc.name)); }
      return true;
    }

    /** The onExit callback of an instance. */
    method OnExit(hashHex: string, name: string)
      requires Valid()
      modifies this`services, this`serviceHandles
      ensures Valid() && Snapshot() == Next(old(Snapshot()), Exit(hashHex, name))
    {
      NextInv(Snapshot(), Exit(hashHex, name));
      RemoveService(ServiceKey(hashHex, name));
    }
  }
}
