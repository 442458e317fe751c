/**
 * The Kubernetes API as the initializer sees it: a store of named objects
 * that any call may refuse. Object schemas are reduced to the parts the
 * initializer decides; which calls fail, and what each read of a
 * terminating namespace answers, are oracles fixed in the cluster's state.
 */
module Platform {
  import opened Wrappers
  import opened Identity
  import opened Images
  import opened InitScript

  /** The kinds of object the initializer creates. */
  datatype Kind =
    | Namespace | PersistentVolumeClaim | Secret | ConfigMap
    | ServiceAccount | Deployment | Service | Ingress

  /** An object's address; a namespace is addressed by its own name in both fields. */
  datatype Ref = Ref(kind: Kind, namespace: string, name: string)

  function NamespaceRef(namespace: string): Ref {
    Ref(Namespace, namespace, namespace)
  }

  /** The namespace holding the shared objects the copy steps read. */
  const SystemNamespace := "workspace-system"

  /** What the model keeps of each object. */
  datatype Content =
    | NamespaceObject(labels: map<string, string>)
    | Claim(accessMode: string, storage: string, storageClass: string)
    | SecretObject(data: map<string, string>)
    | InitScriptMap(script: seq<Fragment>)
    | FeatureInstallMap
    | InfoMap(info: WorkspaceInfo)
    | RegistryAuth(registry: string)
    | ServiceAccountObject(roleArn: string)
    | DeploymentObject(serviceAccount: string, initContainers: seq<Container>,
                       containers: seq<Container>, pullSecret: string)
    | ServiceObject(port: nat, targetPort: nat)
    | IngressObject(host: string, tlsHost: string, tlsSecret: string, backend: string, backendPort: nat)
    | SharedObject(payload: string)   // a `workspace-system` object the copy steps read

  /** What one `read_namespace` call yields while the namespace is being deleted. */
  datatype ReadAnswer =
    | Present                  // the read succeeds: the namespace still exists
    | ApiError(status: int)    // an `ApiException`; 404 once the namespace is gone
    | OtherError               // any other exception

  class Cluster {
    /** The objects that exist. */
    var objects: map<Ref, Content>
    /** Creations the API server refuses (admission, quota, validation). */
    var refused: set<Ref>
    /** Collection deletions the API server refuses. */
    var refusedCollections: set<(Kind, string)>
    /** Namespace deletions the API server refuses. */
    var refusedNamespaceDeletes: set<string>
    /** Namespaces whose deletion has been accepted. */
    var terminating: set<string>
    /** The answers of the coming `read_namespace` calls, in order. */
    var answers: seq<ReadAnswer>

    constructor (objects: map<Ref, Content>, refused: set<Ref>, refusedCollections: set<(Kind, string)>,
                 refusedNamespaceDeletes: set<string>, answers: seq<ReadAnswer>)
      ensures this.objects == objects && this.refused == refused
      ensures this.refusedCollections == refusedCollections
      ensures this.refusedNamespaceDeletes == refusedNamespaceDeletes
      ensures this.terminating == {} && this.answers == answers
    {
      this.objects := objects;
      this.refused := refused;
      this.refusedCollections := refusedCollections;
      this.refusedNamespaceDeletes := refusedNamespaceDeletes;
      this.terminating := {};
      this.answers := answers;
    }

    /** Only the objects may have changed since the call began. */
    twostate predicate OnlyObjectsChanged()
      reads this
    {
      && refused == old(refused) && refusedCollections == old(refusedCollections)
      && refusedNamespaceDeletes == old(refusedNamespaceDeletes)
      && terminating == old(terminating) && answers == old(answers)
    }

    /** `create_*`: fails when the object already exists (409) or the server refuses it. */
    method Create(r: Ref, c: Content) returns (ok: bool)
      modifies this
      ensures ok <==> r !in old(objects) && r !in refused
      ensures objects == if ok then old(objects)[r := c] else old(objects)
      ensures refused == old(refused) && refusedCollections == old(refusedCollections)
      ensures refusedNamespaceDeletes == old(refusedNamespaceDeletes)
      ensures terminating == old(terminating) && answers == old(answers)
    {
      ok := r !in objects && r !in refused;
      if ok {
        objects := objects[r := c];
      }
    }

    /** `read_*`: the object, or `None` for the 404 the call raises. */
    method Read(r: Ref) returns (c: Option<Content>)
      ensures c == if r in objects then Some(objects[r]) else None
    {
      if r in objects {
        c := Some(objects[r]);
      } else {
        c := None;
      }
    }

    /** `delete_collection_namespaced_*`: removes every object of `kind` in `namespace`. */
    method DeleteCollection(kind: Kind, namespace: string) returns (ok: bool)
      modifies this
      ensures ok <==> (kind, namespace) !in refusedCollections
      ensures objects == if ok then Without(old(objects), kind, namespace) else old(objects)
      ensures refused == old(refused) && refusedCollections == old(refusedCollections)
      ensures refusedNamespaceDeletes == old(refusedNamespaceDeletes)
      ensures terminating == old(terminating) && answers == old(answers)
    {
      ok := (kind, namespace) !in refusedCollections;
      if ok {
        objects := Without(objects, kind, namespace);
      }
    }

    /** `delete_namespace`: raises when the namespace does not exist or the server refuses. */
    method DeleteNamespace(namespace: string) returns (ok: bool)
      modifies this
      ensures ok <==> NamespaceRef(namespace) in objects && namespace !in refusedNamespaceDeletes
      ensures terminating == if ok then old(terminating) + {namespace} else old(terminating)
      ensures objects == old(objects) && refused == old(refused)
      ensures refusedCollections == old(refusedCollections)
      ensures refusedNamespaceDeletes == old(refusedNamespaceDeletes) && answers == old(answers)
    {
      ok := NamespaceRef(namespace) in objects && namespace !in refusedNamespaceDeletes;
      if ok {
        terminating := terminating + {namespace};
      }
    }

    /** `read_namespace` on a terminating namespace: the next answer of the oracle. */
    method ReadNamespace(namespace: string) returns (a: ReadAnswer)
      requires answers != []
      modifies this
      ensures a == old(answers[0]) && answers == old(answers[1..])
      ensures objects == old(objects) && refused == old(refused)
      ensures refusedCollections == old(refusedCollections)
      ensures refusedNamespaceDeletes == old(refusedNamespaceDeletes) && terminating == old(terminating)
    {
      a := answers[0];
      answers := answers[1..];
    }
  }

  /** The objects left after deleting every object of `kind` in `namespace`. */
  function Without(objects: map<Ref, Content>, kind: Kind, namespace: string): (rest: map<Ref, Content>)
    ensures rest.Keys <= objects.Keys
    ensures forall r :: r in objects && (r.kind != kind || r.namespace != namespace) ==> r in rest && rest[r] == objects[r]
    ensures forall r :: r in rest ==> r.kind != kind || r.namespace != namespace
  {
    map r | r in objects && (r.kind != kind || r.namespace != namespace) :: objects[r]
  }
}
