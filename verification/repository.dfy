/** The in-memory result store (app/repositories/memory.py), keyed by analysis id. */
module Repository {
  import opened Wrappers
  import opened Domain

  /** The store after `save(a)`: `a` under its own id, every other entry as before. */
  function Saved(store: map<string, TranscriptAnalysis>, a: TranscriptAnalysis): (r: map<string, TranscriptAnalysis>)
    ensures a.id in r && r[a.id] == a
    ensures r.Keys == store.Keys + {a.id}
    ensures forall k :: k in store && k != a.id ==> r[k] == store[k]
  {
    store[a.id := a]
  }

  /** Every entry is stored under its own id: the table maps id to analysis. */
  predicate KeyedById(store: map<string, TranscriptAnalysis>)
  {
    forall k :: k in store ==> store[k].id == k
  }

  /** Saving keeps every entry under its own id. */
  lemma SavedKeyedById(store: map<string, TranscriptAnalysis>, a: TranscriptAnalysis)
    requires KeyedById(store)
    ensures KeyedById(Saved(store, a))
  {
  }

  /** Saving the same analysis twice leaves the store as saving it once. */
  lemma SaveIsIdempotent(store: map<string, TranscriptAnalysis>, a: TranscriptAnalysis)
    ensures Saved(Saved(store, a), a) == Saved(store, a)
  {
  }

  /** The store after saving `analyses` one after another, in order. */
  function SaveAll(store: map<string, TranscriptAnalysis>, analyses: seq<TranscriptAnalysis>): map<string, TranscriptAnalysis>
  {
    if analyses == [] then store
    else Saved(SaveAll(store, analyses[..|analyses| - 1]), analyses[|analyses| - 1])
  }

  /** The ids of `analyses`. */
  function IdsOf(analyses: seq<TranscriptAnalysis>): set<string>
  {
    set i | 0 <= i < |analyses| :: analyses[i].id
  }

  /** No later element of `analyses` has the same id as element `i`. */
  predicate LastWithItsId(analyses: seq<TranscriptAnalysis>, i: int)
    requires 0 <= i < |analyses|
  {
    forall j :: i < j < |analyses| ==> analyses[j].id != analyses[i].id
  }

  /** The ids of `analyses` extended by one element. */
  lemma IdsOfSnoc(analyses: seq<TranscriptAnalysis>)
    requires analyses != []
    ensures IdsOf(analyses) == IdsOf(analyses[..|analyses| - 1]) + {analyses[|analyses| - 1].id}
  {
  }

  /** Saving a sequence adds exactly its ids to the store's keys. */
  lemma {:induction false} SaveAllKeys(store: map<string, TranscriptAnalysis>, analyses: seq<TranscriptAnalysis>)
    ensures SaveAll(store, analyses).Keys == store.Keys + IdsOf(analyses)
  {
    if analyses != [] {
      SaveAllKeys(store, analyses[..|analyses| - 1]);
      IdsOfSnoc(analyses);
    }
  }

  /** Saving a sequence leaves every entry under an id outside the sequence unchanged. */
  lemma {:induction false} SaveAllKeepsOthers(store: map<string, TranscriptAnalysis>, analyses: seq<TranscriptAnalysis>, k: string)
    requires k in store && k !in IdsOf(analyses)
    ensures k in SaveAll(store, analyses) && SaveAll(store, analyses)[k] == store[k]
  {
    if analyses != [] {
      IdsOfSnoc(analyses);
      SaveAllKeepsOthers(store, analyses[..|analyses| - 1], k);
    }
  }

  /** Under each id, the store keeps the last analysis of the sequence saved with it. */
  lemma {:induction false} SaveAllLastWins(store: map<string, TranscriptAnalysis>, analyses: seq<TranscriptAnalysis>, i: int)
    requires 0 <= i < |analyses| && LastWithItsId(analyses, i)
    ensures analyses[i].id in SaveAll(store, analyses)
    ensures SaveAll(store, analyses)[analyses[i].id] == analyses[i]
  {
    var n := |analyses| - 1;
    if i < n {
      var prefix := analyses[..n];
      assert prefix[i] == analyses[i];
      assert LastWithItsId(prefix, i);
      SaveAllLastWins(store, prefix, i);
    }
  }

  /** With distinct ids, every analysis of the sequence can be found under its id afterwards. */
  lemma SaveAllDistinct(store: map<string, TranscriptAnalysis>, analyses: seq<TranscriptAnalysis>)
    requires forall i, j :: 0 <= i < j < |analyses| ==> analyses[i].id != analyses[j].id
    ensures forall i :: 0 <= i < |analyses| ==>
              analyses[i].id in SaveAll(store, analyses) && SaveAll(store, analyses)[analyses[i].id] == analyses[i]
  {
    forall i | 0 <= i < |analyses|
      ensures analyses[i].id in SaveAll(store, analyses) && SaveAll(store, analyses)[analyses[i].id] == analyses[i]
    {
      SaveAllLastWins(store, analyses, i);
    }
  }

  /** `InMemoryTranscriptRepository`: a dict from id to analysis, updated in place. */
  class InMemoryTranscriptRepository {
    var store: map<string, TranscriptAnalysis>

    /** The repository invariant: `save` files each analysis under its own id. */
    ghost predicate Valid()
      reads this
    {
      KeyedById(store)
    }

    /** A new repository holds nothing. */
    constructor ()
      ensures Valid()
      ensures store == map[]
    {
      store := map[];
    }

    /** `save`: upsert under the analysis's id. */
    method Save(analysis: TranscriptAnalysis)
      requires Valid()
      modifies this
      ensures Valid()
      ensures store == Saved(old(store), analysis)
    {
      store := store[analysis.id := analysis];
    }

    /** `get`: the analysis stored under `id`, or `None`; the store is left as it is. */
    method Get(id: string) returns (r: Option<TranscriptAnalysis>)
      ensures r.Some? <==> id in store
      ensures r.Some? ==> r.value == store[id]
      ensures Valid() && r.Some? ==> r.value.id == id
    {
      r := if id in store then Some(store[id]) else None;
    }
  }
}
