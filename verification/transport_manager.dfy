/** `pkg/transportmanager/transportmanager.go`: the loop that sends objects to the paired cluster. */
module TransportManager {
  import opened Wrappers
  import opened Json
  import opened Strconv
  import opened Objects
  import opened WorkQueue
  import opened KubeTransporter
  import opened ConfigContainer
  import opened Pipeline

  class BasicTransportManager {
    const store: Store
    const Transporter: KubeApiserverTransporter
    var Versions: map<string, string>
    var ObjQueue: Queue<Ref>
    ghost var successes: seq<Success>
    ghost var settled: map<Ref, (string, string)>

    /** `NewBasicTransportManager`: the new transporter replaces the one that is registered for the
        namespace, and gets the stored settings at once. Of a namespace that is not paired it is not
        registered; the error is dropped. */
    constructor (store: Store, remote: RemoteCluster, container: DrConfig, namespace: string)
      requires container.ClustersValid()
      modifies container`ClusterConfigListeners, container.Transporters()
      ensures this.store == store && fresh(Transporter) && Transporter.remote == remote
      ensures Versions == map[] && ObjQueue == Empty() && successes == [] && settled == map[]
      ensures container.ClustersValid() && container.Clusters() == Listen(old(container.Clusters()), namespace, None)
      ensures namespace in container.NamespaceConfigedCluster ==>
                container.ClusterConfigListeners == old(container.ClusterConfigListeners)[namespace := Transporter]
      ensures namespace !in container.NamespaceConfigedCluster ==>
                Transporter.PairClusterSettings == None && Transporter !in container.Transporters()
    {
      var transporter := new KubeApiserverTransporter(remote);
      this.store, Transporter := store, transporter;
      Versions, ObjQueue := map[], Empty();
      successes, settled := [], map[];
      new;
      assert container.Clusters() == old(container.Clusters());
      assert Transporter !in container.Transporters();
      var ok := container.RegClusterConfigListener(namespace, Transporter);
    }

    /** The pipeline state `s` with this manager's part of it put in. */
    ghost function Put(s: State): State
      reads this, store, Transporter, Transporter.remote
    {
      s.(heap := store.heap, transportQueue := ObjQueue, versions := Versions,
         settings := Transporter.PairClusterSettings, remote := Transporter.remote.objects,
         successes := successes, settled := settled)
    }

    method IsResourceTransported(obj: Ref) returns (transported: bool)
      requires store.heap.Valid() && obj < |store.heap.objs|
      ensures transported <==> store.heap.Uid(obj) in Versions
    {
      transported := store.heap.Uid(obj) in Versions;
    }

    method AddResourceObj(obj: Ref)
      modifies this`ObjQueue
      ensures ObjQueue == old(ObjQueue).Add(obj)
    {
      ObjQueue := ObjQueue.Add(obj);
    }

    method CheckNewVersion(obj: Ref) returns (isNew: bool)
      requires store.heap.Valid() && obj < |store.heap.objs|
      ensures isNew <==> IsNewVersion(Versions, store.heap.Uid(obj), GetResourceVersion(store.heap.Tree(obj)))
    {
      var receivedVersion := GetResourceVersion(store.heap.Tree(obj));
      var uid := store.heap.Uid(obj);
      if uid !in Versions {
        return true;
      }
      var received := Atoi(receivedVersion).0;
      var marked := Atoi(Versions[uid]).0;
      isNew := marked < received;
    }

    method MarkAsSuccessed(obj: Ref)
      requires store.heap.Valid() && obj < |store.heap.objs|
      modifies this`Versions
      ensures Versions == old(Versions)[store.heap.Uid(obj) := GetResourceVersion(store.heap.Tree(obj))]
    {
      Versions := Versions[store.heap.Uid(obj) := GetResourceVersion(store.heap.Tree(obj))];
    }

    /** One iteration of `transport`; `s` is the state of the pipeline it runs in. */
    method Transport(fault: Option<Fault>, ghost s: State) returns (panicked: bool)
      requires s == Put(s) && ObjQueue.queue != [] && ValidRef(s, ObjQueue.queue[0])
      modifies this, Transporter.remote
      ensures panicked <==> !TransportReturns(s, fault)
      ensures !panicked ==> Put(s) == TransportRun(s, fault)
    {
      var obj := ObjQueue.queue[0];
      ObjQueue := ObjQueue.Get();
      panicked := SendNow(obj, fault, s.(transportQueue := s.transportQueue.Get()));
      ObjQueue := ObjQueue.Done(obj);
    }

    /** The iteration without the bookkeeping of the queue. */
    method SendNow(obj: Ref, fault: Option<Fault>, ghost s: State) returns (panicked: bool)
      requires s == Put(s) && ValidRef(s, obj)
      modifies this, Transporter.remote
      ensures panicked <==> SendPanics(s, obj, fault)
      ensures !panicked ==> Put(s) == Send(s, obj, fault)
    {
      var o := store.heap.objs[obj];
      var isNew := CheckNewVersion(obj);
      ghost var read := (store.heap.Uid(obj), GetResourceVersion(store.heap.Tree(obj)));
      panicked := false;
      if !isNew {
        settled := settled[obj := read];
        return;
      }
      var err;
      panicked, err := Transporter.Transport(o.gvr, o.action, store.heap.Tree(obj), fault);
      if panicked {
        return;
      }
      if err == Some(OtherError) {
        ObjQueue := ObjQueue.AddRateLimited(obj);
      } else {
        MarkAsSuccessed(obj);
        successes := successes + [Success(obj, read.0, read.1, o.action, err.None?)];
        settled := settled[obj := read];
      }
    }
  }
}
