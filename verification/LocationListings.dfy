/**
 What the index says of listings taken as they are: containers listed twice, parents that
 are missing or hang in a circle, rooms nobody listed. Nothing here asks for a sound store.
 */
module LocationListings {
  import opened Sequences
  import opened Inventory
  import opened Forest
  import opened StoreModel
  import opened Paths
  import opened LocationIndex

  // ---- The tables ------------------------------------------------------------------------

  /** Of several rows listed under one id the last one counts. */
  lemma {:induction false} LastContainerCounts(rows: seq<Container>, id: int)
    ensures id in ContainerTable(rows) <==> exists i :: 0 <= i < |rows| && rows[i].id == id
    ensures forall i :: 0 <= i < |rows| && rows[i].id == id && (forall j :: i < j < |rows| ==> rows[j].id != id) ==>
      id in ContainerTable(rows) && ContainerTable(rows)[id] == rows[i]
  {
    if rows != [] {
      var before, last := rows[..|rows| - 1], rows[|rows| - 1];
      LastContainerCounts(before, id);
      assert rows == before + [last];
      if last.id == id {
        assert rows[|rows| - 1].id == id;
      } else {
        assert forall i :: 0 <= i < |before| ==> before[i] == rows[i];
      }
    }
  }

  lemma {:induction false} LastRoomCounts(rows: seq<Room>, id: int)
    ensures id in RoomTable(rows) <==> exists i :: 0 <= i < |rows| && rows[i].id == id
    ensures forall i :: 0 <= i < |rows| && rows[i].id == id && (forall j :: i < j < |rows| ==> rows[j].id != id) ==>
      id in RoomTable(rows) && RoomTable(rows)[id] == rows[i]
  {
    if rows != [] {
      var before, last := rows[..|rows| - 1], rows[|rows| - 1];
      LastRoomCounts(before, id);
      assert rows == before + [last];
      if last.id == id {
        assert rows[|rows| - 1].id == id;
      } else {
        assert forall i :: 0 <= i < |before| ==> before[i] == rows[i];
      }
    }
  }

  // ---- The walk up -------------------------------------------------------------------------

  /** Each row hangs from the next. */
  ghost predicate Hanging(cs: Containers, chain: seq<Container>) {
    forall i :: 0 <= i < |chain| - 1 ==>
      chain[i].parent.Some? && chain[i].parent.value in cs && chain[i + 1] == cs[chain[i].parent.value]
  }

  /** Nothing is above the last row, or only what has been met already. */
  ghost predicate Ends(cs: Containers, chain: seq<Container>, seen: set<int>) {
    && chain != []
    && var top := chain[|chain| - 1].parent;
    top.Some? && top.value in cs ==> top.value in seen || exists i :: 0 <= i < |chain| && chain[i].id == top.value
  }

  lemma {:induction false} ChainHangs(cs: Containers, c: Container, seen: set<int>)
    requires RowsKeyed(cs) && c.id in cs && c.id !in seen
    ensures var chain := ChainFrom(cs, c, seen);
      chain != [] && chain[0] == c && Hanging(cs, chain) && Ends(cs, chain, seen)
    decreases |cs.Keys - seen|
  {
    var chain := ChainFrom(cs, c, seen);
    if c.parent.Some? && c.parent.value in cs {
      var up := c.parent.value;
      SubsetSmaller(cs.Keys - (seen + {c.id}), cs.Keys - seen);
      var rest := ChainFrom(cs, cs[up], seen + {c.id});
      assert cs[up].id == up && chain == [c] + rest;
      if up in seen + {c.id} {
        assert chain == [c];
        assert chain[0].id == c.id;
      } else {
        ChainHangs(cs, cs[up], seen + {c.id});
        EndsStill(cs, c, rest, seen);
      }
    }
  }

  lemma EndsStill(cs: Containers, c: Container, rest: seq<Container>, seen: set<int>)
    requires Ends(cs, rest, seen + {c.id})
    ensures Ends(cs, [c] + rest, seen)
  {
    var chain, top := [c] + rest, rest[|rest| - 1].parent;
    assert chain[|chain| - 1] == rest[|rest| - 1];
    if top.Some? && top.value in cs && top.value !in seen {
      if top.value == c.id {
        assert chain[0].id == top.value;
      } else {
        var i :| 0 <= i < |rest| && rest[i].id == top.value;
        assert chain[i + 1].id == top.value;
      }
    }
  }

  /** The rows met on the way up: from the row itself, each hanging from the next, as long as
      there is a parent that has not been met. No other list of rows is like that. */
  lemma ChainExactly(cs: Containers, c: Container, chain: seq<Container>)
    requires RowsKeyed(cs) && c.id in cs
    ensures chain == ChainFrom(cs, c, {}) <==>
      (chain != [] && chain[0] == c && Hanging(cs, chain) && Ends(cs, chain, {}) && Distinct(ChainIds(chain)))
  {
    hide ChainFrom;
    ChainHangs(cs, c, {});
    ChainFresh(cs, c, {});
    var walk := ChainFrom(cs, c, {});
    if chain != [] && chain[0] == c && Hanging(cs, chain) && Ends(cs, chain, {}) && Distinct(ChainIds(chain)) {
      SameAsFar(cs, walk, chain, |chain| - 1);
    }
  }

  lemma IdsApart(chain: seq<Container>, i: int, j: int)
    requires Distinct(ChainIds(chain)) && 0 <= i < j < |chain|
    ensures chain[i].id != chain[j].id
  {
    assert ChainIds(chain)[i] != ChainIds(chain)[j];
  }

  /** Where one list goes on, one that begins alike does not end. */
  lemma GoesOn(cs: Containers, a: seq<Container>, b: seq<Container>, n: nat)
    requires RowsKeyed(cs) && 0 < n <= |a| && n < |b| && a[..n] == b[..n]
    requires Ends(cs, a, {}) && Hanging(cs, b) && Distinct(ChainIds(b))
    ensures n < |a|
  {
    assert a[n - 1] == a[..n][n - 1] == b[..n][n - 1] == b[n - 1];
    var up := b[n - 1].parent.value;
    assert b[n] == cs[up] && cs[up].id == up;
    if n == |a| {
      var i :| 0 <= i < |a| && a[i].id == up;
      assert a[i] == a[..n][i] == b[..n][i] == b[i];
      IdsApart(b, i, n);
    }
  }

  /** Two such lists cannot part, nor can one be longer. */
  lemma {:induction false} SameAsFar(cs: Containers, a: seq<Container>, b: seq<Container>, n: nat)
    requires a != [] && b != [] && a[0] == b[0] && Hanging(cs, a) && Hanging(cs, b)
    requires Ends(cs, a, {}) && Ends(cs, b, {}) && Distinct(ChainIds(a)) && Distinct(ChainIds(b)) && RowsKeyed(cs)
    requires n < |b|
    ensures n < |a| && a[..n + 1] == b[..n + 1]
    ensures n == |b| - 1 ==> a == b
  {
    if n == 0 {
      assert a[..1] == [a[0]] && b[..1] == [b[0]];
    } else {
      SameAsFar(cs, a, b, n - 1);
      GoesOn(cs, a, b, n);
      assert a[n - 1] == a[..n][n - 1] == b[..n][n - 1] == b[n - 1];
      assert a[..n + 1] == a[..n] + [a[n]] && b[..n + 1] == b[..n] + [b[n]];
    }
    if n == |b| - 1 && |a| > |b| {
      GoesOn(cs, b, a, |b|);
    }
  }

  // ---- Paths and ancestors -------------------------------------------------------------------

  lemma {:induction false} NamesFromTop(chain: seq<Container>)
    ensures |NamesTop(chain)| == |chain|
    ensures forall i :: 0 <= i < |chain| ==> NamesTop(chain)[|chain| - 1 - i] == chain[i].name
  {
    if chain != [] {
      NamesFromTop(chain[1..]);
      forall i | 0 <= i < |chain| ensures NamesTop(chain)[|chain| - 1 - i] == chain[i].name {
        if i > 0 {
          assert chain[i] == chain[1..][i - 1];
        }
      }
    }
  }

  /** The path of a listed container: its own room, the names of the walk from the top down;
      nothing when its room is not listed. */
  lemma PathOfListed(rooms: Rooms, cs: Containers, c: Container, names: seq<string>)
    requires RowsKeyed(cs) && c.id in cs
    requires c.roomId in rooms
    requires var chain := ChainFrom(cs, c, {});
      && |names| == |chain| + 1 && names[0] == rooms[c.roomId].name
      && forall i :: 0 <= i < |chain| ==> names[|chain| - i] == chain[i].name
    ensures PathFrom(rooms, cs, c) == Join(names, " > ") != ""
    ensures PathFrom(rooms - {c.roomId}, cs, c) == ""
  {
    var chain := ChainFrom(cs, c, {});
    NamesFromTop(chain);
    forall k | 0 <= k < |chain| ensures names[k + 1] == NamesTop(chain)[k] {
      var i := |chain| - 1 - k;
      assert names[|chain| - i] == chain[i].name;
    }
    assert names == [rooms[c.roomId].name] + NamesTop(chain);
  }

  /** The answer of a container: its walk inside out, then the room of the topmost container if
      that room is listed; of a listed room: the room; of anything else: nothing. */
  lemma AncestorsOfListed(rooms: Rooms, cs: Containers, place: Location)
    requires RowsKeyed(cs)
    ensures place.kind.RoomKind? && place.id in rooms ==> AncestorsOf(rooms, cs, place) == [place]
    ensures place.kind.ContainerKind? && place.id in cs ==>
      var chain, above := ChainFrom(cs, cs[place.id], {}), AncestorsOf(rooms, cs, place);
      && chain != []
      && (forall i :: 0 <= i < |chain| ==> i < |above| && above[i] == Location(ContainerKind, chain[i].id))
      && var room := chain[|chain| - 1].roomId;
      above[|chain|..] == if room in rooms then [Location(RoomKind, room)] else []
    ensures place.kind.RoomKind? && place.id !in rooms ==> AncestorsOf(rooms, cs, place) == []
    ensures place.kind.ContainerKind? && place.id !in cs ==> AncestorsOf(rooms, cs, place) == []
    ensures place.kind.OtherKind? ==> AncestorsOf(rooms, cs, place) == []
  {
  }

  // ---- Children ------------------------------------------------------------------------------

  /** Listed rows are looked at one by one, in listing order. */
  lemma {:induction false} SittingAppend(rooms: Rooms, cs: Containers, a: seq<Container>, b: seq<Container>, place: Location)
    ensures Sitting(rooms, cs, a + b, place) == Sitting(rooms, cs, a, place) + Sitting(rooms, cs, b, place)
  {
    hide SitsIn;
    if b == [] {
      assert a + b == a;
    } else {
      var last := |b| - 1;
      SittingAppend(rooms, cs, a, b[..last], place);
      assert (a + b)[..|a + b| - 1] == a + b[..last];
    }
  }

  /** One listed row is among the children of a listed place exactly when it hangs from that
      container, or lies in that room with no listed parent. */
  lemma ChildOfListed(rooms: Rooms, cs: Containers, c: Container, place: Location)
    ensures Sitting(rooms, cs, [c], place) == [] || Sitting(rooms, cs, [c], place) == [c]
    ensures Sitting(rooms, cs, [c], place) == [c] <==>
      || (place.kind == RoomKind && place.id in rooms && c.roomId == place.id
          && (c.parent == None || c.parent.value !in cs))
      || (place.kind == ContainerKind && place.id in cs && c.parent == Some(place.id))
  {
    assert [c][..0] == [];
  }

  // ---- Places --------------------------------------------------------------------------------

  lemma {:induction false} PlacesAppend(rooms: Rooms, cs: Containers, a: seq<Container>, b: seq<Container>, fold: string -> string)
    requires RowsKeyed(cs) && (forall c :: c in a ==> c.id in cs) && (forall c :: c in b ==> c.id in cs)
    ensures ContainerPlaces(rooms, cs, a + b, fold) == ContainerPlaces(rooms, cs, a, fold) + ContainerPlaces(rooms, cs, b, fold)
  {
    hide PathFrom;
    if b == [] {
      assert a + b == a;
    } else {
      var last := |b| - 1;
      PlacesAppend(rooms, cs, a, b[..last], fold);
      assert (a + b)[..|a + b| - 1] == a + b[..last];
    }
  }

  /** A listed container is a place, under its folded name and its path, exactly when its room
      is listed. */
  lemma PlaceOfListed(rooms: Rooms, cs: Containers, c: Container, fold: string -> string)
    requires RowsKeyed(cs) && c.id in cs
    ensures ContainerPlaces(rooms, cs, [c], fold) ==
      if c.roomId in rooms then [Place(fold(c.name), PathFrom(rooms, cs, c), Location(ContainerKind, c.id))] else []
  {
    hide ChainFrom;
    assert [c][..0] == [];
    if c.roomId in rooms {
      var names := [rooms[c.roomId].name] + NamesTop(ChainFrom(cs, c, {}));
      NamesFromTop(ChainFrom(cs, c, {}));
      PathOfListed(rooms, cs, c, names);
    }
  }

  /** The places that carry a name are found in indexing order. */
  lemma {:induction false} CarryingInOrder(a: seq<Place>, b: seq<Place>, wanted: string)
    ensures Carrying(a + b, wanted) == Carrying(a, wanted) + Carrying(b, wanted)
    ensures |b| == 1 ==> Carrying(b, wanted) == if b[0].name == wanted then b else []
  {
    if b == [] {
      assert a + b == a;
    } else {
      var last := |b| - 1;
      CarryingInOrder(a, b[..last], wanted);
      assert (a + b)[..|a + b| - 1] == a + b[..last];
    }
  }
}
