// The materialised state of a board: its id, title and description, its
// columns with their items, the identities that took part, and the
// operations that were replayed to build it.

module Board {

  /** An entity id (`entity.Id`); the empty string means "not set". */
  type EntityId = string

  /** A global sub-object address (`entity.CombinedId`), compared as a token. */
  type CombinedId = string

  /** A point in time, reduced to an integer count since the Unix epoch. */
  type Time = int

  /** `time.Unix(0, 0)`: the edit time of a board that has no operation. */
  const Epoch: Time := 0

  /** An author identity, reduced to its `Id()`. */
  datatype Identity = Identity(id: EntityId)

  /** A replayed operation, reduced to its `Time()`. */
  datatype Operation = Operation(time: Time)

  /** An item of a column, reduced to its `CombinedId()`. */
  datatype Item = Item(combinedId: CombinedId)

  /** A column: its id within the board, its global id, its name and its items in order. */
  datatype Column = Column(id: EntityId, combinedId: CombinedId, name: string, items: seq<Item>)

  datatype Error = ColumnNotFound

  datatype Result<T> = Ok(value: T) | Err(error: Error)

  // ---------------------------------------------------------------------
  // Participants

  /** Some participant in `ps` has identity id `id`. */
  predicate HasParticipantId(ps: seq<Identity>, id: EntityId)
  {
    exists i :: 0 <= i < |ps| && ps[i].id == id
  }

  /** No two participants in `ps` share an identity id. */
  predicate DistinctIds(ps: seq<Identity>)
  {
    forall i, j :: 0 <= i < j < |ps| ==> ps[i].id != ps[j].id
  }

  /** The participant list after an add-if-absent of `p`. */
  function WithParticipant(ps: seq<Identity>, p: Identity): seq<Identity>
  {
    if HasParticipantId(ps, p.id) then ps else ps + [p]
  }

  /** After adding `p`, exactly the old ids and `p`'s id are present. */
  lemma WithParticipantHas(ps: seq<Identity>, p: Identity, id: EntityId)
    ensures HasParticipantId(WithParticipant(ps, p), id)
            <==> HasParticipantId(ps, id) || id == p.id
  {
    var qs := WithParticipant(ps, p);
    if HasParticipantId(qs, id) && !HasParticipantId(ps, id) {
      var i :| 0 <= i < |qs| && qs[i].id == id;
      assert i == |ps|;
    }
    if id == p.id && !HasParticipantId(ps, id) {
      assert qs[|ps|].id == id;
    }
    if HasParticipantId(ps, id) {
      var i :| 0 <= i < |ps| && ps[i].id == id;
      assert qs[i].id == id;
    }
  }

  /** Adding a participant keeps the ids pairwise distinct, and they are distinct afterwards only if they were before. */
  lemma WithParticipantDistinct(ps: seq<Identity>, p: Identity)
    ensures DistinctIds(WithParticipant(ps, p)) <==> DistinctIds(ps)
  {
    var qs := WithParticipant(ps, p);
    assert forall i :: 0 <= i < |ps| ==> qs[i] == ps[i];
    if DistinctIds(ps) && !HasParticipantId(ps, p.id) {
      forall i, j | 0 <= i < j < |qs| ensures qs[i].id != qs[j].id {
        if j == |ps| {
          assert ps[i].id != p.id;
        }
      }
    }
  }

  /** Adding the same participant a second time changes nothing. */
  lemma WithParticipantIdempotent(ps: seq<Identity>, p: Identity)
    ensures WithParticipant(WithParticipant(ps, p), p) == WithParticipant(ps, p)
  {
    WithParticipantHas(ps, p, p.id);
  }

  // ---------------------------------------------------------------------
  // Items

  /** The number of items over all columns of `cols`. */
  function TotalItems(cols: seq<Column>): nat
  {
    if cols == [] then 0 else TotalItems(cols[..|cols| - 1]) + |cols[|cols| - 1].items|
  }

  /** The item count of two column lists laid end to end is the sum of their counts. */
  lemma {:induction false} TotalItemsConcat(a: seq<Column>, b: seq<Column>)
    ensures TotalItems(a + b) == TotalItems(a) + TotalItems(b)
  {
    if b == [] {
      assert a + b == a;
    } else {
      var front := b[..|b| - 1];
      assert (a + b)[..|a + b| - 1] == a + front;
      TotalItemsConcat(a, front);
    }
  }

  /** A board counts no item exactly when every one of its columns is empty. */
  lemma {:induction false} TotalItemsZero(cols: seq<Column>)
    ensures TotalItems(cols) == 0 <==> forall i :: 0 <= i < |cols| ==> cols[i].items == []
  {
    if cols != [] {
      var front := cols[..|cols| - 1];
      TotalItemsZero(front);
      assert forall i :: 0 <= i < |front| ==> front[i] == cols[i];
    }
  }

  /** Every column's items are included in the count. */
  lemma {:induction false} TotalItemsCountsEach(cols: seq<Column>, k: nat)
    requires k < |cols|
    ensures |cols[k].items| <= TotalItems(cols)
  {
    if k < |cols| - 1 {
      TotalItemsCountsEach(cols[..|cols| - 1], k);
    }
  }

  // ---------------------------------------------------------------------
  // The snapshot

  class Snapshot {
    var id: EntityId
    var title: string
    var description: string
    var columns: seq<Column>
    var participants: seq<Identity>
    var createTime: Time
    var operations: seq<Operation>

    /** The snapshot has an id and lists each participant once. */
    ghost predicate Valid()
      reads this
    {
      id != "" && DistinctIds(participants)
    }

    /** A snapshot can only be built with an id; it starts with no participant and no operation. */
    constructor (id: EntityId, title: string, description: string, columns: seq<Column>, createTime: Time)
      requires id != ""
      ensures Valid()
      ensures this.id == id && this.title == title && this.description == description
      ensures this.columns == columns && this.createTime == createTime
      ensures participants == [] && operations == []
    {
      this.id := id;
      this.title := title;
      this.description := description;
      this.columns := columns;
      this.createTime := createTime;
      participants := [];
      operations := [];
    }

    /** The board's id; asking a snapshot built without one is a coding error. */
    function Id(): (r: EntityId)
      reads this
      requires id != ""
      ensures r != "" && r == id
    {
      id
    }

    /** Every operation replayed so far, in the order they were appended. */
    function AllOperations(): (r: seq<Operation>)
      reads this
      ensures r == operations
    {
      operations
    }

    /** The time of the last operation, or the epoch when there is none. */
    function EditTime(): (t: Time)
      reads this
      ensures operations == [] ==> t == Epoch
      ensures operations != [] ==> t == operations[|operations| - 1].time
    {
      if |operations| == 0 then Epoch else operations[|operations| - 1].time
    }

    /** Records `op` after every earlier operation; no other field moves. */
    method AppendOperation(op: Operation)
      modifies this`operations
      ensures operations == old(operations) + [op]
      ensures id == old(id) && title == old(title) && description == old(description)
      ensures columns == old(columns) && participants == old(participants)
      ensures createTime == old(createTime)
      ensures EditTime() == op.time
      ensures old(Valid()) ==> Valid()
    {
      operations := operations + [op];
    }

    /** The first column, by position, whose global id is `id`, or ColumnNotFound. */
    method SearchColumn(id: CombinedId) returns (r: Result<Column>)
      ensures r.Err? <==> forall j :: 0 <= j < |columns| ==> columns[j].combinedId != id
      ensures r.Err? ==> r.error == ColumnNotFound
      ensures r.Ok? ==> exists k :: 0 <= k < |columns| && columns[k] == r.value
                            && r.value.combinedId == id
                            && forall j :: 0 <= j < k ==> columns[j].combinedId != id
    {
      var i := 0;
      while i < |columns|
        invariant 0 <= i <= |columns|
        invariant forall j :: 0 <= j < i ==> columns[j].combinedId != id
      {
        if columns[i].combinedId == id {
          return Ok(columns[i]);
        }
        i := i + 1;
      }
      return Err(ColumnNotFound);
    }

    /** Appends `p` unless a participant with the same identity id is already listed. */
    method AddParticipant(p: Identity)
      modifies this`participants
      ensures HasParticipantId(old(participants), p.id) ==> participants == old(participants)
      ensures !HasParticipantId(old(participants), p.id) ==> participants == old(participants) + [p]
      ensures participants == WithParticipant(old(participants), p)
      ensures HasParticipantId(participants, p.id)
      ensures forall who :: HasParticipantId(participants, who)
                <==> HasParticipantId(old(participants), who) || who == p.id
      ensures old(Valid()) ==> Valid()
    {
      var i := 0;
      while i < |participants|
        invariant 0 <= i <= |participants|
        invariant forall j :: 0 <= j < i ==> participants[j].id != p.id
      {
        if p.id == participants[i].id {
          forall who ensures HasParticipantId(participants, who)
                <==> HasParticipantId(old(participants), who) || who == p.id {
            WithParticipantHas(old(participants), p, who);
          }
          return;
        }
        i := i + 1;
      }
      ghost var before := participants;
      participants := participants + [p];
      forall who ensures HasParticipantId(participants, who)
            <==> HasParticipantId(before, who) || who == p.id {
        WithParticipantHas(before, p, who);
      }
      WithParticipantDistinct(before, p);
    }

    /** Whether some participant has identity id `id`. */
    method HasParticipant(id: EntityId) returns (b: bool)
      ensures b <==> HasParticipantId(participants, id)
    {
      var i := 0;
      while i < |participants|
        invariant 0 <= i <= |participants|
        invariant forall j :: 0 <= j < i ==> participants[j].id != id
      {
        if participants[i].id == id {
          return true;
        }
        i := i + 1;
      }
      return false;
    }

    /** Whether some id of `ids` is a participant's; false when `ids` is empty. */
    method HasAnyParticipant(ids: seq<EntityId>) returns (b: bool)
      ensures b <==> exists k :: 0 <= k < |ids| && HasParticipantId(participants, ids[k])
      ensures ids == [] ==> !b
    {
      var i := 0;
      while i < |ids|
        invariant 0 <= i <= |ids|
        invariant forall k :: 0 <= k < i ==> !HasParticipantId(participants, ids[k])
      {
        var has := HasParticipant(ids[i]);
        if has {
          return true;
        }
        i := i + 1;
      }
      return false;
    }

    /** The number of items over all columns. */
    method ItemCount() returns (count: int)
      ensures count == TotalItems(columns)
      ensures count >= 0
      ensures columns == [] ==> count == 0
    {
      count := 0;
      var i := 0;
      while i < |columns|
        invariant 0 <= i <= |columns|
        invariant count == TotalItems(columns[..i])
      {
        assert columns[..i + 1][..i] == columns[..i];
        count := count + |columns[i].items|;
        i := i + 1;
      }
      assert columns[..i] == columns;
    }
  }
}
