/** The record logic of the history sync route (routes/api/history.js): the
    merge of the client's records into the server's and the `since` filter of
    the records sent back. A record's `updated_at` is its time in
    milliseconds, after the date has been parsed; the other fields travel
    unchanged in `payload`. */
module History {
  import opened Wrappers
  import opened Strs
  import opened Seqs
  import opened S3Store

  datatype Record = Record(id: string, updatedAt: int, payload: string)

  /** The ids of the records, in order. */
  function Ids(rs: seq<Record>): (ids: seq<string>)
    ensures |ids| == |rs| && forall k :: 0 <= k < |rs| ==> ids[k] == rs[k].id
  {
    seq(|rs|, k requires 0 <= k < |rs| => rs[k].id)
  }

  lemma IdsSnoc(rs: seq<Record>, i: nat)
    requires i < |rs|
    ensures Ids(rs[..i + 1]) == Ids(rs[..i]) + [rs[i].id]
  {}

  // ---- The reference resolution of one id ----

  /** The server record an id ends up with after the first loop: the last
      record with that id. */
  function LastWith(rs: seq<Record>, id: string): (r: Option<Record>)
    ensures r.Some? <==> id in Ids(rs)
    ensures r.Some? ==> r.value.id == id && r.value in rs
    decreases |rs|
  {
    if rs == [] then None
    else if rs[|rs| - 1].id == id then Some(rs[|rs| - 1])
    else
      assert Ids(rs) == Ids(rs[..|rs| - 1]) + [rs[|rs| - 1].id];
      LastWith(rs[..|rs| - 1], id)
  }

  /** What the map holds for `id` once `client` has been merged into the
      server records: a client record goes in when the id is absent, or
      replaces the record held when it is strictly later. */
  function Resolved(server: seq<Record>, client: seq<Record>, id: string): (r: Option<Record>)
    ensures r.Some? <==> id in Ids(server) || id in Ids(client)
    ensures r.Some? ==> r.value.id == id
    decreases |client|
  {
    if client == [] then LastWith(server, id)
    else
      var c := client[|client| - 1];
      assert Ids(client) == Ids(client[..|client| - 1]) + [c.id];
      var prev := Resolved(server, client[..|client| - 1], id);
      if c.id != id then prev
      else if prev.None? || c.updatedAt > prev.value.updatedAt then Some(c)
      else prev
  }

  /** The client records with the id, in order. */
  function WithId(rs: seq<Record>, id: string): (r: seq<Record>)
    ensures forall k :: 0 <= k < |r| ==> r[k].id == id && r[k] in rs
    decreases |rs|
  {
    if rs == [] then []
    else
      var init := rs[..|rs| - 1];
      var x := rs[|rs| - 1];
      var w := WithId(init, id);
      assert forall k :: 0 <= k < |w| ==> w[k] in rs by {
        assert rs == init + [x];
      }
      if x.id == id then w + [x] else w
  }

  /** The records that compete for the id, in the order the loops see them:
      the server's last record with the id (earlier server records with the
      id are overwritten without comparison), then the client records with it. */
  function Candidates(server: seq<Record>, client: seq<Record>, id: string): seq<Record> {
    (match LastWith(server, id) case None => [] case Some(r) => [r]) + WithId(client, id)
  }

  /** An independent reading of the resolution: the first record, from the
      front, whose time no later record strictly exceeds. */
  function FirstMax(rs: seq<Record>): (r: Option<Record>)
    ensures r.Some? <==> rs != []
    ensures r.Some? ==> r.value in rs && forall k :: 0 <= k < |rs| ==> rs[k].updatedAt <= r.value.updatedAt
  {
    if rs == [] then None
    else
      var rest := FirstMax(rs[1..]);
      if rest.Some? && rest.value.updatedAt > rs[0].updatedAt then rest else Some(rs[0])
  }

  /** Ties keep the earlier record: every record before the winner is
      strictly earlier. */
  lemma {:induction false} FirstMaxKeepsEarliest(rs: seq<Record>)
    requires rs != []
    ensures exists k :: 0 <= k < |rs| && rs[k] == FirstMax(rs).value
                        && forall j :: 0 <= j < k ==> rs[j].updatedAt < rs[k].updatedAt
  {
    var rest := FirstMax(rs[1..]);
    if rest.Some? && rest.value.updatedAt > rs[0].updatedAt {
      FirstMaxKeepsEarliest(rs[1..]);
      var k :| 0 <= k < |rs[1..]| && rs[1..][k] == rest.value
               && forall j :: 0 <= j < k ==> rs[1..][j].updatedAt < rs[1..][k].updatedAt;
      assert rs[k + 1] == FirstMax(rs).value;
      forall j | 0 <= j < k + 1 ensures rs[j].updatedAt < rs[k + 1].updatedAt {
        if j > 0 {
          assert rs[j] == rs[1..][j - 1];
        }
      }
    } else {
      assert rs[0] == FirstMax(rs).value;
    }
  }

  /** The front-to-back maximum of a sequence with one more record at the
      back: the new record wins only when strictly later. */
  lemma {:induction false} FirstMaxSnoc(rs: seq<Record>, x: Record)
    ensures FirstMax(rs + [x])
            == if FirstMax(rs).None? || x.updatedAt > FirstMax(rs).value.updatedAt then Some(x) else FirstMax(rs)
    decreases |rs|
  {
    if rs != [] {
      assert (rs + [x])[1..] == rs[1..] + [x];
      FirstMaxSnoc(rs[1..], x);
    }
  }

  /** The loop's resolution is the first record attaining the latest time
      among everything the id was set to. */
  lemma {:induction false} ResolvedIsFirstMax(server: seq<Record>, client: seq<Record>, id: string)
    ensures Resolved(server, client, id) == FirstMax(Candidates(server, client, id))
    decreases |client|
  {
    var head := match LastWith(server, id) case None => [] case Some(r) => [r];
    if client == [] {
      assert Candidates(server, client, id) == head;
    } else {
      var init := client[..|client| - 1];
      var c := client[|client| - 1];
      ResolvedIsFirstMax(server, init, id);
      if c.id == id {
        assert Candidates(server, client, id) == Candidates(server, init, id) + [c];
        FirstMaxSnoc(Candidates(server, init, id), c);
      } else {
        assert Candidates(server, client, id) == Candidates(server, init, id);
      }
    }
  }

  /** The state the merge leaves, as a value: one record per distinct id of
      `server ++ client` in order of first appearance, each resolved. */
  function MergedSpec(server: seq<Record>, client: seq<Record>): seq<Record> {
    var ids := Dedup(Ids(server) + Ids(client));
    seq(|ids|, k requires 0 <= k < |ids| => Resolved(server, client, ids[k]).value)
  }

  /** Exactly one record per distinct id, and in the order of first
      appearance; a replaced record keeps its id's place. */
  lemma MergedIds(server: seq<Record>, client: seq<Record>)
    ensures var merged := MergedSpec(server, client);
            && Ids(merged) == Dedup(Ids(server + client))
            && Distinct(Ids(merged))
            && (forall id :: id in Ids(merged) <==> id in Ids(server + client))
  {
    var merged := MergedSpec(server, client);
    assert Ids(server + client) == Ids(server) + Ids(client);
    assert Ids(merged) == Dedup(Ids(server + client));
    forall id ensures id in Ids(merged) <==> id in Ids(server + client) {
      DedupMembers(Ids(server + client), id);
    }
  }

  /** An id only the server has keeps its last server record. */
  lemma MergedServerOnly(server: seq<Record>, client: seq<Record>, k: nat)
    requires k < |MergedSpec(server, client)| && MergedSpec(server, client)[k].id !in Ids(client)
    ensures Some(MergedSpec(server, client)[k]) == LastWith(server, MergedSpec(server, client)[k].id)
  {
    var id := MergedSpec(server, client)[k].id;
    ResolvedIsFirstMax(server, client, id);
    assert Candidates(server, client, id) == [LastWith(server, id).value];
  }

  /** The resolved record of an id is one of its candidates, at least as
      late as all of them and strictly later than every one before it. */
  lemma ResolvedLatest(server: seq<Record>, client: seq<Record>, id: string)
    requires Resolved(server, client, id).Some?
    ensures var r := Resolved(server, client, id).value;
            var cands := Candidates(server, client, id);
            && (forall i :: 0 <= i < |cands| ==> cands[i].updatedAt <= r.updatedAt)
            && exists i :: 0 <= i < |cands| && cands[i] == r
                           && forall j :: 0 <= j < i ==> cands[j].updatedAt < r.updatedAt
  {
    ResolvedIsFirstMax(server, client, id);
    FirstMaxKeepsEarliest(Candidates(server, client, id));
  }

  /** Every candidate of an id is a record of the input. */
  lemma CandidatesFromInput(server: seq<Record>, client: seq<Record>, id: string, i: nat)
    requires i < |Candidates(server, client, id)|
    ensures Candidates(server, client, id)[i] in server + client
  {
    var head := match LastWith(server, id) case None => [] case Some(r) => [r];
    var w := WithId(client, id);
    assert Candidates(server, client, id) == head + w;
    if i < |head| {
      assert Candidates(server, client, id)[i] in server;
    } else {
      assert Candidates(server, client, id)[i] == w[i - |head|];
    }
  }

  /** Every merged record is a record of the input with its id, at least as
      late as the server's last record with the id and every client record
      with it, and strictly later than every one of those before it in the
      order the loops see them. */
  lemma MergedLatest(server: seq<Record>, client: seq<Record>, k: nat)
    requires k < |MergedSpec(server, client)|
    ensures var r := MergedSpec(server, client)[k];
            var cands := Candidates(server, client, r.id);
            && r in server + client
            && (forall i :: 0 <= i < |cands| ==> cands[i].updatedAt <= r.updatedAt)
            && exists i :: 0 <= i < |cands| && cands[i] == r
                           && forall j :: 0 <= j < i ==> cands[j].updatedAt < r.updatedAt
  {
    var r := MergedSpec(server, client)[k];
    assert Resolved(server, client, r.id) == Some(r);
    ResolvedLatest(server, client, r.id);
    var cands := Candidates(server, client, r.id);
    var i :| 0 <= i < |cands| && cands[i] == r;
    CandidatesFromInput(server, client, r.id, i);
  }

  /** A client record for an id the server lacks goes in; a later client
      record for the same id replaces it only when strictly later. */
  lemma ClientTieKeepsExisting(server: seq<Record>, client: seq<Record>, c: Record)
    requires Resolved(server, client, c.id).Some? && c.updatedAt <= Resolved(server, client, c.id).value.updatedAt
    ensures Resolved(server, client + [c], c.id) == Resolved(server, client, c.id)
  {
    assert (client + [c])[..|client|] == client;
  }

  lemma ClientNewIdInserted(server: seq<Record>, client: seq<Record>, c: Record)
    requires c.id !in Ids(server) + Ids(client)
    ensures Resolved(server, client + [c], c.id) == Some(c)
  {
    assert (client + [c])[..|client|] == client;
  }

  // ---- The map the merge fills ----

  /** A JavaScript `Map` from ids to records: the keys in first-insertion
      order and the value of each key. */
  class RecordMap {
    var order: seq<string>
    var values: map<string, Record>

    ghost predicate Valid()
      reads this
    {
      Distinct(order) && forall id :: id in values <==> id in order
    }

    constructor ()
      ensures Valid() && order == [] && values == map[]
    {
      order := [];
      values := map[];
    }

    /** `map.get(id)`: the record held for the id, if any. */
    function Get(id: string): (r: Option<Record>)
      reads this
      ensures r.Some? <==> id in values
      ensures r.Some? ==> r.value == values[id]
    {
      if id in values then Some(values[id]) else None
    }

    /** `map.set(id, r)`: a new key goes to the back; an existing key keeps
        its place and takes the new value. */
    method Set(id: string, r: Record)
      requires Valid()
      modifies this
      ensures Valid()
      ensures values == old(values)[id := r]
      ensures order == if id in old(values) then old(order) else old(order) + [id]
    {
      if id !in values {
        order := order + [id];
      }
      values := values[id := r];
    }

    /** `Array.from(map.values())`: the values in key order. */
    function Values(): (vs: seq<Record>)
      requires Valid()
      reads this
      ensures |vs| == |order| && forall k :: 0 <= k < |order| ==> vs[k] == values[order[k]]
    {
      seq(|order|, k requires 0 <= k < |order| && order[k] in values reads this => values[order[k]])
    }
  }

  lemma LastWithSnoc(rs: seq<Record>, i: nat, id: string)
    requires i < |rs|
    ensures LastWith(rs[..i + 1], id) == if rs[i].id == id then Some(rs[i]) else LastWith(rs[..i], id)
  {
    assert rs[..i + 1][..i] == rs[..i];
  }

  lemma ResolvedSnoc(server: seq<Record>, client: seq<Record>, j: nat, id: string)
    requires j < |client|
    ensures var prev := Resolved(server, client[..j], id);
            var c := client[j];
            Resolved(server, client[..j + 1], id)
            == if c.id != id then prev
               else if prev.None? || c.updatedAt > prev.value.updatedAt then Some(c)
               else prev
  {
    assert client[..j + 1][..j] == client[..j];
  }

  /** The record a map holds for an id, if any. */
  function Lookup(values: map<string, Record>, id: string): Option<Record> {
    if id in values then Some(values[id]) else None
  }

  /** The map after one client record: set when its id is absent or when it
      is strictly later than the record held. */
  function MergeOne(values: map<string, Record>, c: Record): (v: map<string, Record>)
    ensures v.Keys == values.Keys + {c.id}
  {
    if c.id !in values || c.updatedAt > values[c.id].updatedAt then values[c.id := c] else values
  }

  /** The keys of the map, in first-insertion order, are the distinct ids seen. */
  ghost predicate KeysState(order: seq<string>, values: map<string, Record>, seen: seq<string>) {
    && Distinct(order) && (forall id :: id in values <==> id in order)
    && order == Dedup(seen)
  }

  /** Setting an id, new or not, keeps the key order of the ids seen. */
  lemma KeysStep(order: seq<string>, values: map<string, Record>, values': map<string, Record>, seen: seq<string>, id: string)
    requires KeysState(order, values, seen) && values'.Keys == values.Keys + {id}
    ensures KeysState(if id in values then order else order + [id], values', seen + [id])
  {
    DedupSnoc(seen, id);
    DedupMembers(seen, id);
  }

  /** What the map holds after the first loop has seen `rs`. */
  ghost predicate ServerState(order: seq<string>, values: map<string, Record>, rs: seq<Record>) {
    KeysState(order, values, Ids(rs)) && forall id :: Lookup(values, id) == LastWith(rs, id)
  }

  /** What the map holds after the second loop has seen `cs`. */
  ghost predicate ClientState(order: seq<string>, values: map<string, Record>, server: seq<Record>, cs: seq<Record>) {
    KeysState(order, values, Ids(server) + Ids(cs)) && forall id :: Lookup(values, id) == Resolved(server, cs, id)
  }

  lemma ServerLookupStep(values: map<string, Record>, server: seq<Record>, i: nat, id: string)
    requires i < |server| && Lookup(values, id) == LastWith(server[..i], id)
    ensures Lookup(values[server[i].id := server[i]], id) == LastWith(server[..i + 1], id)
  {
    LastWithSnoc(server, i, id);
  }

  lemma ServerStep(order: seq<string>, values: map<string, Record>, server: seq<Record>, i: nat)
    requires i < |server| && ServerState(order, values, server[..i])
    ensures var r := server[i];
            ServerState(if r.id in values then order else order + [r.id], values[r.id := r], server[..i + 1])
  {
    var r := server[i];
    var values' := values[r.id := r];
    IdsSnoc(server, i);
    KeysStep(order, values, values', Ids(server[..i]), r.id);
    forall id ensures Lookup(values', id) == LastWith(server[..i + 1], id) {
      ServerLookupStep(values, server, i, id);
    }
  }

  lemma ClientLookupStep(values: map<string, Record>, server: seq<Record>, client: seq<Record>, j: nat, id: string)
    requires j < |client|
    requires Lookup(values, id) == Resolved(server, client[..j], id)
    requires Lookup(values, client[j].id) == Resolved(server, client[..j], client[j].id)
    ensures Lookup(MergeOne(values, client[j]), id) == Resolved(server, client[..j + 1], id)
  {
    ResolvedSnoc(server, client, j, id);
  }

  lemma ClientStep(order: seq<string>, values: map<string, Record>, server: seq<Record>, client: seq<Record>, j: nat)
    requires j < |client| && ClientState(order, values, server, client[..j])
    ensures var c := client[j];
            ClientState(if c.id in values then order else order + [c.id], MergeOne(values, c), server, client[..j + 1])
  {
    var c := client[j];
    var values' := MergeOne(values, c);
    IdsSnoc(client, j);
    assert Ids(server) + Ids(client[..j + 1]) == (Ids(server) + Ids(client[..j])) + [c.id];
    KeysStep(order, values, values', Ids(server) + Ids(client[..j]), c.id);
    forall id ensures Lookup(values', id) == Resolved(server, client[..j + 1], id) {
      ClientLookupStep(values, server, client, j, id);
    }
  }

  /** The first loop of `mergeRecords`: every server record is set, so the
      last one of each id stays. */
  method AddServerRecords(m: RecordMap, server: seq<Record>)
    requires m.Valid() && m.order == [] && m.values == map[]
    modifies m
    ensures ServerState(m.order, m.values, server)
  {
    assert Ids(server[..0]) == [];
    for i := 0 to |server|
      invariant ServerState(m.order, m.values, server[..i])
    {
      var r := server[i];
      ServerStep(m.order, m.values, server, i);
      m.Set(r.id, r);
    }
    assert server[..|server|] == server;
  }

  /** The second loop of `mergeRecords`: a client record is set when its id
      is absent or it is strictly later than the record held. */
  method MergeClientRecords(m: RecordMap, server: seq<Record>, client: seq<Record>)
    requires ServerState(m.order, m.values, server)
    modifies m
    ensures ClientState(m.order, m.values, server, client)
  {
    assert Ids(server) + Ids(client[..0]) == Ids(server);
    for j := 0 to |client|
      invariant ClientState(m.order, m.values, server, client[..j])
    {
      var c := client[j];
      ClientStep(m.order, m.values, server, client, j);
      var existing := m.Get(c.id);
      if existing.None? {
        m.Set(c.id, c);
      } else if c.updatedAt > existing.value.updatedAt {
        m.Set(c.id, c);
      }
    }
    assert client[..|client|] == client;
  }

  /** `mergeRecords(serverRecords, clientRecords)`. */
  method MergeRecords(server: seq<Record>, client: seq<Record>) returns (merged: seq<Record>)
    ensures merged == MergedSpec(server, client)
  {
    var m := new RecordMap();
    AddServerRecords(m, server);
    MergeClientRecords(m, server, client);
    merged := m.Values();
    ghost var ids := Dedup(Ids(server) + Ids(client));
    forall k | 0 <= k < |ids| ensures merged[k] == Resolved(server, client, ids[k]).value {
      assert Lookup(m.values, ids[k]) == Resolved(server, client, ids[k]);
    }
  }

  // ---- The `since` filter ----

  /** The records the route sends back: with `since` given, those updated
      strictly after it, in order; without it, all of them. */
  function FilterSince(records: seq<Record>, since: Option<int>): (r: seq<Record>)
    ensures since.None? ==> r == records
    ensures since.Some? ==> forall k :: 0 <= k < |r| ==> r[k].updatedAt > since.value
    ensures |r| <= |records|
  {
    if since.None? || records == [] then records
    else
      var rest := FilterSince(records[1..], since);
      if records[0].updatedAt > since.value then [records[0]] + rest else rest
  }

  /** The filter works record by record: filtering a concatenation filters
      each part, so every stored record strictly after `since` is kept once
      for each time it is stored, and in place. */
  lemma {:induction false} FilterSinceConcat(a: seq<Record>, b: seq<Record>, since: Option<int>)
    ensures FilterSince(a + b, since) == FilterSince(a, since) + FilterSince(b, since)
    decreases |a|
  {
    if a == [] {
      assert a + b == b;
    } else if since.Some? {
      assert (a + b)[0] == a[0] && (a + b)[1..] == a[1..] + b;
      FilterSinceConcat(a[1..], b, since);
      if a[0].updatedAt > since.value {
        assert FilterSince(a + b, since) == [a[0]] + (FilterSince(a[1..], since) + FilterSince(b, since));
      }
    }
  }

  /** One record is kept exactly when it is strictly after `since`. */
  lemma FilterSinceOne(x: Record, since: int)
    ensures FilterSince([x], Some(since)) == (if x.updatedAt > since then [x] else [])
  {
    assert [x][1..] == [];
  }

  /** The kept records are exactly those strictly after `since`. */
  lemma {:induction false} FilterSinceMembers(records: seq<Record>, since: int, x: Record)
    ensures x in FilterSince(records, Some(since)) <==> x in records && x.updatedAt > since
    decreases |records|
  {
    if records != [] {
      FilterSinceMembers(records[1..], since, x);
      assert records == [records[0]] + records[1..];
    }
  }

  /** The kept records keep their relative order. */
  lemma {:induction false} FilterSinceInOrder(records: seq<Record>, since: Option<int>)
    ensures IsSubsequence(FilterSince(records, since), records)
    decreases |records|
  {
    if since.None? {
      SubsequenceOfSelf(records);
    } else if records != [] {
      FilterSinceInOrder(records[1..], since);
      var rest := FilterSince(records[1..], since);
      if records[0].updatedAt > since.value {
        assert ([records[0]] + rest)[1..] == rest;
      } else if rest != [] {
        assert rest[0] != records[0];
      }
    }
  }

  lemma {:induction false} SubsequenceOfSelf(b: seq<Record>)
    ensures IsSubsequence(b, b)
    decreases |b|
  {
    if b != [] {
      SubsequenceOfSelf(b[1..]);
    }
  }

  // ---- The `/sync` handler's record flow ----

  /** What the handler does with the records: the stored records (`[]` when
      the history object is missing or does not parse), merged and written
      back when the client sent any, then the `since` filter. `wrote` says
      whether the history object was put. */
  method SyncRecords(stored: Option<seq<Record>>, client: seq<Record>, since: Option<int>)
    returns (kept: seq<Record>, wrote: bool, returned: seq<Record>)
    ensures var server := if stored.Some? then stored.value else [];
            kept == (if |client| > 0 then MergedSpec(server, client) else server)
    ensures wrote <==> |client| > 0
    ensures returned == FilterSince(kept, since)
  {
    kept := if stored.Some? then stored.value else [];
    wrote := false;
    if |client| > 0 {
      kept := MergeRecords(kept, client);
      wrote := true;
    }
    returned := FilterSince(kept, since);
  }

  // ---- The `/sync` handler ----

  /** What the handler answers: 401, 500 with its error text, or the records. */
  datatype SyncReply = Unauthorized | ServerError(error: string) | Synced(records: seq<Record>)

  const SyncFailurePrefix: string := "同步历史记录失败: "

  /** The message `createS3Client` throws without endpoint or credentials. */
  const S3ConfigMissing: string := "S3 配置缺失: S3_ENDPOINT / S3_ACCESS_KEY_ID / S3_SECRET_ACCESS_KEY"

  /** The handler as written. `getObject` is taken from a module that exports
      only `createS3Client`, `objectExists` and `putObject`, so it is
      `undefined`; calling it throws a `TypeError` inside the `try`, and the
      `catch` answers 500 with that error's message. */
  function SyncAsWritten(tokenMatches: bool, endpoint: string, accessKeyId: string, secretAccessKey: string): SyncReply {
    if !tokenMatches then Unauthorized
    else if !ClientConfigOk(endpoint, accessKeyId, secretAccessKey) then ServerError(SyncFailurePrefix + S3ConfigMissing)
    else ServerError(SyncFailurePrefix + "getObject is not a function")
  }

  /** As written, the handler never answers with records: an authenticated
      request always fails, before the stored records are read or merged. */
  lemma SyncAsWrittenNeverSyncs(tokenMatches: bool, endpoint: string, accessKeyId: string, secretAccessKey: string)
    ensures var reply := SyncAsWritten(tokenMatches, endpoint, accessKeyId, secretAccessKey);
            && !reply.Synced?
            && (tokenMatches ==> reply.ServerError? && StartsWith(reply.error, SyncFailurePrefix))
            && (tokenMatches && ClientConfigOk(endpoint, accessKeyId, secretAccessKey) ==>
                  reply.error == SyncFailurePrefix + "getObject is not a function")
  {
    var reply := SyncAsWritten(tokenMatches, endpoint, accessKeyId, secretAccessKey);
    if tokenMatches {
      assert reply.error[..|SyncFailurePrefix|] == SyncFailurePrefix;
    }
  }

  /** The handler with the history object read as intended. `stored` is what
      reading gives (`None` when the object is missing or does not parse) and
      `putError` is the failure of the write back, if any. */
  method Sync(tokenMatches: bool, endpoint: string, accessKeyId: string, secretAccessKey: string,
              stored: Option<seq<Record>>, client: seq<Record>, since: Option<int>, putError: Option<string>)
    returns (reply: SyncReply)
    ensures !tokenMatches ==> reply == Unauthorized
    ensures tokenMatches && !ClientConfigOk(endpoint, accessKeyId, secretAccessKey) ==>
              reply == ServerError(SyncFailurePrefix + S3ConfigMissing)
    ensures tokenMatches && ClientConfigOk(endpoint, accessKeyId, secretAccessKey) ==>
              var server := if stored.Some? then stored.value else [];
              var kept := if |client| > 0 then MergedSpec(server, client) else server;
              reply == if |client| > 0 && putError.Some? then ServerError(SyncFailurePrefix + putError.value)
                       else Synced(FilterSince(kept, since))
  {
    if !tokenMatches {
      return Unauthorized;
    }
    if !ClientConfigOk(endpoint, accessKeyId, secretAccessKey) {
      return ServerError(SyncFailurePrefix + S3ConfigMissing);
    }
    var kept, wrote, returned := SyncRecords(stored, client, since);
    if wrote && putError.Some? {
      return ServerError(SyncFailurePrefix + putError.value);
    }
    reply := Synced(returned);
  }
}
