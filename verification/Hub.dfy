// The hub's registry of output buffers, active and finished (internal/stream/hub.go).
module HubRegistry {
  import opened Basics
  import opened RingBuffers

  type AgentKey = string

  datatype AgentStream = AgentStream(taskId: string, buffer: RingBuffer)

  type Registry = map<AgentKey, AgentStream>

  ghost function Buffers(r: Registry): set<RingBuffer> {
    set id | id in r :: r[id].buffer
  }

  ghost function Arrays(r: Registry): set<array<byte>> {
    set id | id in r :: r[id].buffer.data
  }

  ghost predicate BuffersValid(r: Registry)
    reads Buffers(r), Arrays(r)
  {
    forall id :: id in r ==> r[id].buffer.Valid()
  }

  class Hub {
    var streams: Registry
    var finishedBuffers: Registry

    ghost predicate Valid()
      reads this, Buffers(streams), Arrays(streams), Buffers(finishedBuffers), Arrays(finishedBuffers)
    {
      BuffersValid(streams) && BuffersValid(finishedBuffers)
    }

    constructor ()
      ensures Valid() && streams == map[] && finishedBuffers == map[]
    {
      streams, finishedBuffers := map[], map[];
    }

    // What a reader of the agent's buffer gets.
    function Content(id: AgentKey): Bytes
      reads this, Buffers(streams), Arrays(streams), Buffers(finishedBuffers), Arrays(finishedBuffers)
      requires Valid()
    {
      if id in streams then streams[id].buffer.Backlog()
      else if id in finishedBuffers then finishedBuffers[id].buffer.Backlog()
      else []
    }

    // Everything a task-wide reader can see: for each agent its task and its bytes.
    ghost function Views(): map<AgentKey, View>
      reads this, Buffers(streams), Arrays(streams), Buffers(finishedBuffers), Arrays(finishedBuffers)
      requires Valid()
    {
      map id | id in streams.Keys + finishedBuffers.Keys ::
        View(if id in streams then streams[id].taskId else finishedBuffers[id].taskId, Content(id))
    }

    method RegisterAgent(id: AgentKey, taskId: string)
      requires Valid()
      modifies this
      ensures Valid()
      ensures id in streams && fresh(streams[id].buffer) && streams[id].taskId == taskId
      ensures streams == old(streams)[id := streams[id]] && finishedBuffers == old(finishedBuffers)
      ensures Content(id) == [] && streams[id].buffer.size == 10485760
      ensures forall other :: other != id ==> Content(other) == old(Content(other))
    {
      var buffer := new RingBuffer(DEFAULT_BUFFER_SIZE);
      streams := streams[id := AgentStream(taskId, buffer)];
    }

    // Unregistering changes nothing any reader can see, of one agent or of a task.
    method UnregisterAgent(id: AgentKey)
      requires Valid()
      modifies this
      ensures Valid() && id !in streams
      ensures forall other :: Content(other) == old(Content(other))
      ensures Views() == old(Views())
      ensures old(streams.Keys !! finishedBuffers.Keys) ==> streams.Keys !! finishedBuffers.Keys
      ensures streams == old(streams) - {id}
      ensures finishedBuffers ==
                if id in old(streams) then old(finishedBuffers)[id := old(streams)[id]] else old(finishedBuffers)
    {
      hide Mirrors, RingBuffer.Backlog, RingBuffer.Valid;
      if id in streams {
        var stream := streams[id];
        streams := streams - {id};
        finishedBuffers := finishedBuffers[id := stream];
        assert forall other :: Content(other) == old(Content(other));
        assert Views().Keys == old(Views().Keys);
      }
    }

    method GetFullBuffer(id: AgentKey) returns (out: Bytes)
      requires Valid()
      ensures out == Content(id)
    {
      if id in streams {
        out := streams[id].buffer.ReadAll();
        return;
      }
      if id in finishedBuffers {
        out := finishedBuffers[id].buffer.ReadAll();
        return;
      }
      return [];
    }

    lemma ViewsSplit()
      requires Valid()
      ensures Views() == Snapshot(finishedBuffers) + Snapshot(streams)
    {
    }

    // One agent's buffer, or all buffers of a task in some order: active ones first.
    method GetBackfill(taskId: string, agentId: AgentKey)
      returns (out: Bytes, ghost active: seq<AgentKey>, ghost finished: seq<AgentKey>)
      requires Valid()
      ensures agentId != "" ==> out == Content(agentId)
      ensures agentId == "" ==>
                && ListsTask(Snapshot(streams), taskId, active, {})
                && ListsTask(Snapshot(finishedBuffers), taskId, finished, {})
                && out == Concat(DataOf(Snapshot(streams), active)) + Concat(DataOf(Snapshot(finishedBuffers), finished))
      ensures agentId == "" && streams.Keys !! finishedBuffers.Keys ==> ListsTask(Views(), taskId, active + finished, {})
    {
      hide ListsTask;
      out, active, finished := [], [], [];
      if agentId != "" {
        out := GetFullBuffer(agentId);
        return;
      }
      var actives, others := Snapshot(streams), Snapshot(finishedBuffers);
      var tail;
      out, active := Collect(actives, taskId);
      tail, finished := Collect(others, taskId);
      out := out + tail;
      hide RingBuffer.Valid, RingBuffer.Backlog;
      assert Snapshot(streams) == actives && Snapshot(finishedBuffers) == others;
      if streams.Keys !! finishedBuffers.Keys {
        ListsBoth(actives, others, taskId, active, finished);
        ViewsSplit();
      }
    }
  }

  datatype View = View(taskId: string, data: Bytes)

  // What reading each buffer of a registry gives, with its task.
  function Snapshot(r: Registry): map<AgentKey, View>
    requires BuffersValid(r)
    reads Buffers(r), Arrays(r)
  {
    map id | id in r :: View(r[id].taskId, r[id].buffer.Backlog())
  }

  // The ids of a task's entries outside `todo`, each once.
  ghost predicate ListsTask(views: map<AgentKey, View>, taskId: string, ids: seq<AgentKey>, todo: set<AgentKey>) {
    && (forall j, k :: 0 <= j < k < |ids| ==> ids[j] != ids[k])
    && (forall id :: id in ids <==> id in views && id !in todo && views[id].taskId == taskId)
  }

  lemma ListsBoth(actives: map<AgentKey, View>, others: map<AgentKey, View>, taskId: string,
                  active: seq<AgentKey>, finished: seq<AgentKey>)
    requires actives.Keys !! others.Keys
    requires ListsTask(actives, taskId, active, {}) && ListsTask(others, taskId, finished, {})
    ensures ListsTask(others + actives, taskId, active + finished, {})
  {
    var ids := active + finished;
    forall j, k | 0 <= j < k < |ids| ensures ids[j] != ids[k] {
      if j < |active| <= k {
        assert ids[j] in active && ids[k] in finished;
      }
    }
  }

  ghost function DataOf(views: map<AgentKey, View>, ids: seq<AgentKey>): seq<Bytes>
    requires forall id :: id in ids ==> id in views
  {
    seq(|ids|, k requires 0 <= k < |ids| => views[ids[k]].data)
  }

  lemma DataNext(views: map<AgentKey, View>, ids: seq<AgentKey>, id: AgentKey)
    requires id in views && forall x :: x in ids ==> x in views
    ensures Concat(DataOf(views, ids + [id])) == Concat(DataOf(views, ids)) + views[id].data
  {
    assert DataOf(views, ids + [id]) == DataOf(views, ids) + [views[id].data];
    ConcatNext(DataOf(views, ids), views[id].data);
  }

  // Two backfills of a task from the same views list the same agents, in some order.
  lemma BackfillsAgree(views: map<AgentKey, View>, taskId: string, ids: seq<AgentKey>, ids': seq<AgentKey>)
    requires ListsTask(views, taskId, ids, {}) && ListsTask(views, taskId, ids', {})
    ensures multiset(ids) == multiset(ids')
  {
    forall id ensures multiset(ids)[id] == multiset(ids')[id] {
      CountedOnce(ids, id);
      CountedOnce(ids', id);
    }
  }

  method Collect(views: map<AgentKey, View>, taskId: string) returns (result: Bytes, ghost ids: seq<AgentKey>)
    ensures ListsTask(views, taskId, ids, {}) && result == Concat(DataOf(views, ids))
  {
    result, ids := [], [];
    var todo := views.Keys;
    while todo != {}
      invariant todo <= views.Keys
      invariant ListsTask(views, taskId, ids, todo)
      invariant result == Concat(DataOf(views, ids))
    {
      var id :| id in todo;
      todo := todo - {id};
      if views[id].taskId == taskId {
        DataNext(views, ids, id);
        if |views[id].data| > 0 {
          result := result + views[id].data;
        }
        ids := ids + [id];
      }
    }
  }
}
