/** The `-list` mode: collecting the bucket's objects from the store's
    listing stream. */
module Listing {
  import opened Primitives

  /** One entry of the listing stream. The store reports a failure in the
      stream itself, as an entry whose `err` is set. */
  datatype ObjectInfo = ObjectInfo(key: string, size: nat, err: Option<Error>)

  /** listS3Objects: appends every entry of the stream, in stream order, and
      stops at the first entry that carries an error, returning only that
      error and none of the entries gathered so far. */
  method ListObjects(stream: seq<ObjectInfo>) returns (r: Result<seq<ObjectInfo>>)
    ensures r.Ok? <==> forall i :: 0 <= i < |stream| ==> stream[i].err.None?
    ensures r.Ok? ==> r.value == stream
    ensures r.Err? ==>
      exists i :: 0 <= i < |stream| && stream[i].err == Some(r.error) &&
        forall j :: 0 <= j < i ==> stream[j].err.None?
  {
    var objects: seq<ObjectInfo> := [];
    for i := 0 to |stream|
      invariant objects == stream[..i]
      invariant forall j :: 0 <= j < i ==> stream[j].err.None?
    {
      var entry := stream[i];
      if entry.err.Some? {
        return Err(entry.err.value);
      }
      objects := objects + [entry];
    }
    assert stream[..|stream|] == stream;
    return Ok(objects);
  }
}
