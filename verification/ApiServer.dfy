/** The rules of a Kubernetes API server that the cr-syncer relies on, for the objects of one custom resource. */
module ApiServer {
  import opened Wrappers

  type Key = string

  datatype Value = Null | Text(text: string)

  /** The status of an unstructured object: missing, a dictionary, or something else. */
  datatype Status = Nil | Dict(fields: map<string, Value>) | NotADict(text: string)

  datatype Object = Object(
    version: nat,
    labels: map<string, string>,
    annotations: map<string, string>,
    spec: string,
    status: Status,
    deleting: bool,    // a deletion timestamp is set
    finalizers: bool)  // some finalizer holds the object back

  type Objects = map<Key, Object>

  /** One API server. Every change takes the next number of `clock` as the resource version. */
  datatype Cluster = Cluster(objects: Objects, clock: nat)

  datatype ApiError = NotFound | Conflict | AlreadyExists | Unavailable

  datatype Response = Ok(cluster: Cluster) | Err(error: ApiError)

  function Get(objects: Objects, key: Key): Option<Object> {
    if key in objects then Some(objects[key]) else None
  }

  function Put(c: Cluster, key: Key, o: Object): Cluster {
    Cluster(c.objects[key := o.(version := c.clock + 1)], c.clock + 1)
  }

  function Remove(c: Cluster, key: Key): Cluster {
    Cluster(c.objects - {key}, c.clock + 1)
  }

  /** An update that changes nothing is answered without a new version. */
  function Store(c: Cluster, key: Key, o: Object): Cluster
    requires key in c.objects
  {
    if o.(version := c.objects[key].version) == c.objects[key] then c else Put(c, key, o)
  }

  /** Update: refused unless it carries the current version. With a status subresource it leaves the status. */
  function Update(c: Cluster, key: Key, o: Object, statusIsSubresource: bool): Response {
    if key !in c.objects then Err(NotFound)
    else if o.version != c.objects[key].version then Err(Conflict)
    else
      var current := c.objects[key];
      var status := if statusIsSubresource then current.status else o.status;
      Ok(Store(c, key, o.(status := status, deleting := current.deleting, finalizers := current.finalizers)))
  }

  /** UpdateStatus: writes the status and nothing else. */
  function UpdateStatus(c: Cluster, key: Key, o: Object): Response {
    if key !in c.objects then Err(NotFound)
    else if o.version != c.objects[key].version then Err(Conflict)
    else Ok(Store(c, key, c.objects[key].(status := o.status)))
  }

  function Create(c: Cluster, key: Key, o: Object, statusIsSubresource: bool): Response {
    if key in c.objects then Err(AlreadyExists)
    else
      var status := if statusIsSubresource then Nil else o.status;
      Ok(Put(c, key, o.(status := status, deleting := false, finalizers := false)))
  }

  /** Delete: an object with finalizers is only marked. */
  function Delete(c: Cluster, key: Key): Response {
    if key !in c.objects then Err(NotFound)
    else if !c.objects[key].finalizers then Ok(Remove(c, key))
    else if c.objects[key].deleting then Ok(c)
    else Ok(Put(c, key, c.objects[key].(deleting := true)))
  }
}
