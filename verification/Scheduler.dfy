/** The weighted-fair-queueing scheduler as the code keeps it: chunks in per-stream queues,
    tags in a map keyed by chunk, and a choice that is remembered from Peek to Pop. Each
    method is a step of the value `Config()`. */
module Scheduler {
  import opened Options
  import opened PolicyErrors
  import opened Serial
  import W = Wfq

  datatype Chunk = Chunk(id: nat, stream: uint16, len: nat)

  ghost predicate Matches(c: Chunk, it: W.Item, tags: map<nat, real>) {
    it.id == c.id && it.len == c.len && c.id in tags && tags[c.id] == it.tag
  }

  ghost predicate Mirror(q: seq<Chunk>, items: seq<W.Item>, tags: map<nat, real>) {
    |q| == |items| > 0 && forall i :: 0 <= i < |q| ==> Matches(q[i], items[i], tags)
  }

  /** No chunk is queued twice. */
  ghost predicate Unique(queues: map<uint16, seq<Chunk>>) {
    forall s, t, i, j | s in queues && t in queues && 0 <= i < |queues[s]| && 0 <= j < |queues[t]| ::
      queues[s][i].id == queues[t][j].id ==> s == t && i == j
  }

  ghost predicate Mirrors(queues: map<uint16, seq<Chunk>>, tags: map<nat, real>, st: W.State) {
    queues.Keys == st.queues.Keys && forall s | s in queues :: Mirror(queues[s], st.queues[s], tags)
  }

  class WeightedFairQueueing {
    const weights: map<uint16, uint16>
    var streamQueues: map<uint16, seq<Chunk>>
    var streamFinish: map<uint16, real>
    var chunkFinish: map<nat, real>
    var virtualTime: real
    var streamSelected: bool
    var selectedStream: uint16
    ghost var state: W.State

    ghost predicate Valid()
      reads this
    {
      && state.v == virtualTime && state.finish == streamFinish
      && Mirrors(streamQueues, chunkFinish, state) && Unique(streamQueues)
      && (streamSelected ==> selectedStream in streamQueues)
    }

    ghost function Config(): W.Config
      reads this
    {
      W.Config(state, if streamSelected then Some(selectedStream) else None)
    }

    /** Zero weights are dropped from the configuration. */
    constructor (configured: map<uint16, uint16>)
      ensures Valid() && !streamSelected && state == W.State(map[], map[], 0.0)
      ensures weights == map s | s in configured && configured[s] != 0 :: configured[s]
    {
      weights := map s | s in configured && configured[s] != 0 :: configured[s];
      streamQueues, streamFinish, chunkFinish, virtualTime := map[], map[], map[], 0.0;
      streamSelected, selectedStream, state := false, 0, W.State(map[], map[], 0.0);
    }

    /** The chunk goes last in its stream. It is to start when the stream's last chunk
        finishes, or now, and to finish after its length divided by the configured weight. */
    method Push(c: Chunk)
      requires Valid() && c.id !in chunkFinish
      modifies this`streamQueues, this`streamFinish, this`chunkFinish, this`state
      ensures Valid()
      ensures W.Step(old(Config()), W.Enqueue(c.stream, c.id, c.len), Config(), weights)
      ensures var weight := if c.stream in weights && weights[c.stream] != 0 then weights[c.stream] as real else 1.0;
              var last := if c.stream in old(streamFinish) then old(streamFinish)[c.stream] else 0.0;
              var tag := (if last < virtualTime then virtualTime else last) + c.len as real / weight;
              chunkFinish == old(chunkFinish)[c.id := tag] && streamFinish == old(streamFinish)[c.stream := tag]
      ensures streamQueues == old(streamQueues)[c.stream := (if c.stream in old(streamQueues) then old(streamQueues)[c.stream] else []) + [c]]
    {
      hide Mirrors, Unique;
      var s := c.stream;
      var queue := if s in streamQueues then streamQueues[s] else [];
      var weight := if s in weights && weights[s] != 0 then weights[s] as real else 1.0;
      var start := W.Max(virtualTime, if s in streamFinish then streamFinish[s] else 0.0);
      var finish := start + c.len as real / weight;
      PushMirrors(streamQueues, chunkFinish, state, c, finish);
      streamFinish := streamFinish[s := finish];
      chunkFinish := chunkFinish[c.id := finish];
      streamQueues := streamQueues[s := queue + [c]];
      state := W.Push(state, s, c.id, c.len, W.Weight(weights, s));
    }

    /** A remembered choice stands; otherwise the least head is chosen, whatever order the
        streams are looked at in. */
    method Peek() returns (c: Option<Chunk>)
      requires Valid()
      modifies this`streamSelected, this`selectedStream
      ensures Valid()
      ensures old(streamSelected) || streamQueues == map[] ==> Config() == old(Config())
      ensures !old(streamSelected) && streamQueues != map[] ==>
                W.Step(old(Config()), W.Choose(selectedStream), Config(), weights)
      ensures c == if streamSelected then Some(streamQueues[selectedStream][0]) else None
      ensures streamSelected <==> old(streamSelected) || streamQueues != map[]
    {
      hide Unique;
      if streamSelected { return Some(streamQueues[selectedStream][0]); }
      var found, stream: uint16, finish := false, 0, 0.0;
      var todo := streamQueues.Keys;
      while todo != {}
        modifies {}
        invariant todo <= streamQueues.Keys
        invariant found <==> todo != streamQueues.Keys
        invariant found ==> stream in streamQueues && finish == state.queues[stream][0].tag
        invariant forall t | t in streamQueues && t !in todo :: W.Beats(state.queues[t][0].tag, t, finish, stream)
      {
        var t :| t in todo;
        assert Matches(streamQueues[t][0], state.queues[t][0], chunkFinish);
        var f := chunkFinish[streamQueues[t][0].id];
        if !found || f < finish || (f == finish && t < stream) {
          found, stream, finish := true, t, f;
        }
        todo := todo - {t};
      }
      if !found {
        assert streamQueues == map[];
        return None;
      }
      streamSelected, selectedStream := true, stream;
      return Some(streamQueues[stream][0]);
    }

    /** Popping what Peek returned serves the chosen stream and never fails. */
    method Pop(c: Chunk) returns (err: Error)
      requires Valid()
      modifies this`streamQueues, this`chunkFinish, this`virtualTime, this`streamSelected, this`selectedStream, this`state
      ensures !old(streamSelected) ==> err == UnexpectedState && Valid() && Config() == old(Config())
      ensures old(streamSelected) ==> (err == NoError <==> c == old(streamQueues)[old(selectedStream)][0]) && err != UnexpectedState
      ensures err == NoError ==>
                Valid() && W.Step(old(Config()), W.Dequeue(old(selectedStream)), Config(), weights)
      ensures err == NoError ==> c.id in old(chunkFinish) && virtualTime == W.Max(old(virtualTime), old(chunkFinish)[c.id])
      ensures err == NoError ==> chunkFinish == old(chunkFinish) - {c.id}
    {
      if !streamSelected { return UnexpectedState; }
      var s := selectedStream;
      var queue := streamQueues[s];
      var popped, rest := queue[0], queue[1..];
      streamQueues := streamQueues[s := rest];
      if popped != c { return UnexpectedChunk; }
      PopMirrors(old(streamQueues), chunkFinish, state, s);
      virtualTime := W.Max(virtualTime, chunkFinish[c.id]);
      chunkFinish := chunkFinish - {c.id};
      if |rest| == 0 { streamQueues := streamQueues - {s}; }
      state := W.Serve(state, s);
      streamSelected, selectedStream := false, 0;
      return NoError;
    }
  }

  lemma {:induction false} PushMirrors(
    queues: map<uint16, seq<Chunk>>, tags: map<nat, real>, st: W.State, c: Chunk, tag: real)
    requires Mirrors(queues, tags, st) && Unique(queues) && c.id !in tags
    ensures var q := if c.stream in queues then queues[c.stream] else [];
            var st' := W.State(st.queues[c.stream := W.Queue(st, c.stream) + [W.Item(c.id, c.len, tag)]], st.finish[c.stream := tag], st.v);
            Mirrors(queues[c.stream := q + [c]], tags[c.id := tag], st') && Unique(queues[c.stream := q + [c]])
  {
    var q := if c.stream in queues then queues[c.stream] else [];
    var queues' := queues[c.stream := q + [c]];
    forall s, i | s in queues && 0 <= i < |queues[s]| ensures queues[s][i].id in tags {
      assert Mirror(queues[s], st.queues[s], tags) && Matches(queues[s][i], st.queues[s][i], tags);
    }
    forall s | s in queues' ensures Mirror(queues'[s], st.queues[c.stream := W.Queue(st, c.stream) + [W.Item(c.id, c.len, tag)]][s], tags[c.id := tag]) {
      if s in queues { assert Mirror(queues[s], st.queues[s], tags); }
    }
  }

  lemma {:induction false} PopMirrors(queues: map<uint16, seq<Chunk>>, tags: map<nat, real>, st: W.State, s: uint16)
    requires Mirrors(queues, tags, st) && Unique(queues) && s in queues
    ensures W.Queue(st, s) != [] && Matches(queues[s][0], W.Queue(st, s)[0], tags)
    ensures var rest := if |queues[s]| == 1 then queues[s := queues[s][1..]] - {s} else queues[s := queues[s][1..]];
            Mirrors(rest, tags - {queues[s][0].id}, W.Serve(st, s)) && Unique(rest)
  {
    assert Mirror(queues[s], st.queues[s], tags) && Matches(queues[s][0], st.queues[s][0], tags);
    var rest := if |queues[s]| == 1 then queues[s := queues[s][1..]] - {s} else queues[s := queues[s][1..]];
    var st' := W.Serve(st, s);
    forall t | t in rest ensures Mirror(rest[t], st'.queues[t], tags - {queues[s][0].id}) {
      assert Mirror(queues[t], st.queues[t], tags);
      forall i | 0 <= i < |rest[t]| ensures Matches(rest[t][i], st'.queues[t][i], tags - {queues[s][0].id}) {
        var j := if t == s then i + 1 else i;
        assert Matches(queues[t][j], st.queues[t][j], tags) && queues[t][j].id != queues[s][0].id;
      }
    }
    UniqueRest(queues, s, rest);
  }

  lemma {:induction false} UniqueRest(queues: map<uint16, seq<Chunk>>, s: uint16, rest: map<uint16, seq<Chunk>>)
    requires Unique(queues) && s in queues && rest.Keys <= queues.Keys && queues[s] != []
    requires forall t | t in rest :: rest[t] == if t == s then queues[t][1..] else queues[t]
    ensures Unique(rest)
  {
    forall a, b, i, j | a in rest && b in rest && 0 <= i < |rest[a]| && 0 <= j < |rest[b]|
      ensures rest[a][i].id == rest[b][j].id ==> a == b && i == j
    {
      var i', j' := if a == s then i + 1 else i, if b == s then j + 1 else j;
      assert rest[a][i] == queues[a][i'] && rest[b][j] == queues[b][j'];
    }
  }
}
