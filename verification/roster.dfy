/** The character roster held by the view model (viewmodels/DNDApi.kt,
    `DNDApiViewModel`): lookup by id, update-or-create, removal and wholesale
    inventory replacement. Each operation is a method on the view model's list,
    proved against a specification function on sequences; the lemmas below
    state what those functions guarantee. */
module Roster {
  import opened Wrappers
  import opened Dnd

  // ---------------------------------------------------------------------------
  // Specification functions
  // ---------------------------------------------------------------------------

  /** Index of the first entry whose id equals `id` (null matches null), or -1.
      This is what `find`, `indexOf` (through the id-only `equals`) and
      `indexOfFirst { it.id == … }` all compute on the roster. */
  function FirstIndexOf(list: seq<Character>, id: Option<string>): (r: int)
    ensures -1 <= r < |list|
    ensures r == -1 <==> forall k :: 0 <= k < |list| ==> list[k].id != id
    ensures 0 <= r ==> list[r].id == id && forall k :: 0 <= k < r ==> list[k].id != id
  {
    if list == [] then -1
    else if list[0].id == id then 0
    else
      var k := FirstIndexOf(list[1..], id);
      if k == -1 then -1 else k + 1
  }

  /** Whether some character of `characters` has the id of `c`
      (`c in characters`, under the id-only `equals`). */
  predicate MatchesAny(c: Character, characters: seq<Character>)
  {
    FirstIndexOf(characters, c.id) != -1
  }

  /** The character `updateOrCreateCharacter` returns: the argument itself,
      given `freshId` when it is about to be appended without an id. */
  function Upserted(list: seq<Character>, c: Character, freshId: string): Character
  {
    if FirstIndexOf(list, c.id) == -1 && c.id == None then c.(id := Some(freshId)) else c
  }

  /** The roster after `updateOrCreateCharacter`: the first entry with the same
      id is overwritten, or the character is appended when there is none. */
  function UpsertList(list: seq<Character>, c: Character, freshId: string): seq<Character>
  {
    var i := FirstIndexOf(list, c.id);
    if i == -1 then list + [Upserted(list, c, freshId)] else list[i := c]
  }

  /** The roster after `removeCharacters`: `filterNot { it in characters }`. */
  function Without(list: seq<Character>, characters: seq<Character>): seq<Character>
  {
    if list == [] then []
    else (if MatchesAny(list[0], characters) then [] else [list[0]]) + Without(list[1..], characters)
  }

  /** Why `addItemsToCharacterInventory` can throw: `list[-1]` on a miss. */
  datatype RosterError = IndexOutOfBounds(index: int)

  /** The roster after `addItemsToCharacterInventory`: the first entry with the
      id gets the given inventory; with no such entry the call throws. */
  function SetInventory(list: seq<Character>, characterId: string, items: seq<Item>)
    : Result<seq<Character>, RosterError>
  {
    var i := FirstIndexOf(list, Some(characterId));
    if i == -1 then Failure(IndexOutOfBounds(i))
    else Success(list[i := list[i].(inventory := items)])
  }

  /** Every entry has an id, and no two entries share one. */
  predicate DistinctIds(list: seq<Character>)
  {
    && (forall k :: 0 <= k < |list| ==> list[k].id.Some?)
    && (forall j, k :: 0 <= j < k < |list| ==> list[j].id != list[k].id)
  }

  // ---------------------------------------------------------------------------
  // The view model
  // ---------------------------------------------------------------------------

  class DNDApiViewModel {
    /** The value of the `_characterList` state flow. */
    var characterList: seq<Character>

    constructor()
      ensures characterList == []
    {
      characterList := [];
    }

    /** The linear scan behind `find`, `indexOf` and `indexOfFirst`. */
    static method ScanForId(list: seq<Character>, id: Option<string>) returns (index: int)
      ensures index == FirstIndexOf(list, id)
    {
      var k := 0;
      while k < |list|
        invariant 0 <= k <= |list|
        invariant forall j :: 0 <= j < k ==> list[j].id != id
      {
        if list[k].id == id {
          return k;
        }
        k := k + 1;
      }
      return -1;
    }

    /** `getCharacterById`: a copy of the first entry with the id, or null. */
    method GetCharacterById(id: Option<string>) returns (r: Option<Character>)
      ensures r == None <==> forall k :: 0 <= k < |characterList| ==> characterList[k].id != id
      ensures r.Some? ==> exists k :: 0 <= k < |characterList| && characterList[k] == r.value
                            && (forall j :: 0 <= j < k ==> characterList[j].id != id)
      ensures r.Some? ==> r.value.id == id
    {
      var i := ScanForId(characterList, id);
      if i == -1 {
        r := None;
      } else {
        r := Some(characterList[i]);
      }
    }

    /** `updateOrCreateCharacter`. `freshId` stands for the random UUID the
        source draws when it appends a character that has no id. No validity
        check is made. */
    method UpdateOrCreateCharacter(character: Character, freshId: string) returns (r: Character)
      modifies this
      ensures characterList == UpsertList(old(characterList), character, freshId)
      ensures r == Upserted(old(characterList), character, freshId)
    {
      var existingIndex := ScanForId(characterList, character.id);
      r := character;
      if existingIndex == -1 {
        if r.id == None {
          r := r.(id := Some(freshId));
        }
        characterList := characterList + [r];
      } else {
        characterList := characterList[existingIndex := character];
      }
    }

    /** `removeCharacters`: keep, in order, the entries that match none of
        the given characters by id. */
    method RemoveCharacters(characters: seq<Character>)
      modifies this
      ensures characterList == Without(old(characterList), characters)
    {
      var list := characterList;
      var kept := [];
      var k := 0;
      while k < |list|
        invariant 0 <= k <= |list|
        invariant kept == Without(list[..k], characters)
      {
        var hit := ScanForId(characters, list[k].id);
        WithoutDistributes(list[..k], [list[k]], characters);
        assert list[..k + 1] == list[..k] + [list[k]];
        assert Without([list[k]], characters) == if hit == -1 then [list[k]] else [];
        if hit == -1 {
          kept := kept + [list[k]];
        }
        k := k + 1;
      }
      assert list[..k] == list;
      characterList := kept;
    }

    /** `addItemsToCharacterInventory`: the first entry with the id gets `items`
        as its whole inventory; with no such entry `list[-1]` throws and the
        roster is left as it was. */
    method AddItemsToCharacterInventory(characterId: string, items: seq<Item>)
      returns (outcome: Result<(), RosterError>)
      modifies this
      ensures SetInventory(old(characterList), characterId, items).Success? <==> outcome.Success?
      ensures outcome.Success? ==> characterList == SetInventory(old(characterList), characterId, items).value
      ensures outcome.Failure? ==> outcome.error == IndexOutOfBounds(-1) && characterList == old(characterList)
    {
      var index := ScanForId(characterList, Some(characterId));
      if index == -1 {
        return Failure(IndexOutOfBounds(index));
      }
      characterList := characterList[index := characterList[index].(inventory := items)];
      return Success(());
    }
  }

  // ---------------------------------------------------------------------------
  // Properties of the roster operations
  // ---------------------------------------------------------------------------

  /** Creating: with no entry of the same id, the character is appended after
      the unchanged roster, and what is returned has an id: its own, or the
      fresh one when it had none. */
  lemma UpsertAppends(list: seq<Character>, c: Character, freshId: string)
    requires FirstIndexOf(list, c.id) == -1
    ensures var r := Upserted(list, c, freshId);
            && UpsertList(list, c, freshId) == list + [r]
            && |UpsertList(list, c, freshId)| == |list| + 1
            && r.id.Some?
            && r == (if c.id == None then c.(id := Some(freshId)) else c)
  {
  }

  /** Updating: with an entry of the same id, the first such entry is replaced
      by the character as given, in place; length and every other entry are
      unchanged, and the character comes back unchanged. */
  lemma UpsertReplacesInPlace(list: seq<Character>, c: Character, freshId: string)
    requires FirstIndexOf(list, c.id) != -1
    ensures var i, after := FirstIndexOf(list, c.id), UpsertList(list, c, freshId);
            && |after| == |list|
            && after[i] == c
            && (forall k :: 0 <= k < |list| && k != i ==> after[k] == list[k])
            && (forall k :: 0 <= k < i ==> list[k].id != c.id)
            && Upserted(list, c, freshId) == c
  {
  }

  /** After an upsert with a fresh id, looking up the returned character's id
      finds exactly the returned character. */
  lemma UpsertThenFind(list: seq<Character>, c: Character, freshId: string)
    requires forall k :: 0 <= k < |list| ==> list[k].id != Some(freshId)
    ensures var r, after := Upserted(list, c, freshId), UpsertList(list, c, freshId);
            var i := FirstIndexOf(after, r.id);
            0 <= i && after[i] == r
  {
    var r, after := Upserted(list, c, freshId), UpsertList(list, c, freshId);
    var i := FirstIndexOf(list, c.id);
    if i == -1 {
      assert forall k :: 0 <= k < |list| ==> after[k] == list[k];
      assert after[|list|] == r;
      assert forall k :: 0 <= k < |list| ==> after[k].id != r.id;
      assert FirstIndexOf(after, r.id) == |list|;
    } else {
      assert after[i] == c && r == c;
      assert forall k :: 0 <= k < i ==> after[k] == list[k];
      var j := FirstIndexOf(after, r.id);
      assert j != -1 && j <= i;
    }
  }

  /** The two-step example of creating and then editing: an upsert of the
      character the first upsert returned, with changed fields, replaces it
      where it stands and does not grow the roster. */
  lemma UpsertThenEditKeepsSize(list: seq<Character>, c: Character, edited: Character,
                                freshId: string, freshId2: string)
    requires forall k :: 0 <= k < |list| ==> list[k].id != Some(freshId)
    requires edited.id == Upserted(list, c, freshId).id
    ensures var once := UpsertList(list, c, freshId);
            var twice := UpsertList(once, edited, freshId2);
            && |twice| == |once|
            && twice[FirstIndexOf(once, edited.id)] == edited
            && Upserted(once, edited, freshId2) == edited
  {
    UpsertThenFind(list, c, freshId);
  }

  /** Upserting with an id no entry has keeps ids present and distinct. */
  lemma UpsertKeepsIdsDistinct(list: seq<Character>, c: Character, freshId: string)
    requires DistinctIds(list)
    requires forall k :: 0 <= k < |list| ==> list[k].id != Some(freshId)
    ensures DistinctIds(UpsertList(list, c, freshId))
  {
    var after := UpsertList(list, c, freshId);
    var i := FirstIndexOf(list, c.id);
    if i == -1 {
      assert forall k :: 0 <= k < |list| ==> after[k] == list[k];
    } else {
      assert forall k :: 0 <= k < |list| && k != i ==> after[k].id == list[k].id;
    }
  }

  /** Removal distributes over concatenation, so the entries that stay keep
      their relative order. */
  lemma {:induction false} WithoutDistributes(a: seq<Character>, b: seq<Character>, characters: seq<Character>)
    ensures Without(a + b, characters) == Without(a, characters) + Without(b, characters)
  {
    if a == [] {
      assert a + b == b;
    } else {
      assert (a + b)[1..] == a[1..] + b;
      WithoutDistributes(a[1..], b, characters);
    }
  }

  /** An entry stays exactly when it is in the roster and its id matches none
      of the given characters; the roster never grows. */
  lemma {:induction false} WithoutMembership(list: seq<Character>, characters: seq<Character>, x: Character)
    ensures x in Without(list, characters) <==> x in list && !MatchesAny(x, characters)
    ensures |Without(list, characters)| <= |list|
  {
    if list != [] {
      WithoutMembership(list[1..], characters, x);
      assert list == [list[0]] + list[1..];
    }
  }

  /** Removing characters none of whose ids is in the roster is a no-op. */
  lemma {:induction false} WithoutNoMatchIsIdentity(list: seq<Character>, characters: seq<Character>)
    requires forall k :: 0 <= k < |list| ==> !MatchesAny(list[k], characters)
    ensures Without(list, characters) == list
  {
    if list != [] {
      WithoutNoMatchIsIdentity(list[1..], characters);
    }
  }

  /** Removal keeps ids distinct (what stays is a subsequence). */
  lemma {:induction false} WithoutKeepsIdsDistinct(list: seq<Character>, characters: seq<Character>)
    requires DistinctIds(list)
    ensures DistinctIds(Without(list, characters))
  {
    if list != [] {
      WithoutKeepsIdsDistinct(list[1..], characters);
      var rest := Without(list[1..], characters);
      forall x | x in rest ensures x.id != list[0].id {
        WithoutMembership(list[1..], characters, x);
        var k :| 0 <= k < |list[1..]| && list[1..][k] == x;
        assert list[k + 1] == x;
      }
    }
  }

  /** Setting an inventory fails exactly when no entry has the id; otherwise
      it changes the inventory of the first such entry to the given list,
      verbatim, and nothing else. */
  lemma SetInventoryFrame(list: seq<Character>, characterId: string, items: seq<Item>)
    ensures SetInventory(list, characterId, items).Failure? <==>
            forall k :: 0 <= k < |list| ==> list[k].id != Some(characterId)
    ensures SetInventory(list, characterId, items).Success? ==>
            var i, after := FirstIndexOf(list, Some(characterId)), SetInventory(list, characterId, items).value;
            && |after| == |list|
            && after[i] == list[i].(inventory := items)
            && after[i].inventory == items
            && (forall k :: 0 <= k < |list| && k != i ==> after[k] == list[k])
  {
  }

  /** After setting an inventory, looking the character up by id returns it
      with that inventory, and ids are as distinct as before. */
  lemma SetInventoryThenFind(list: seq<Character>, characterId: string, items: seq<Item>)
    requires SetInventory(list, characterId, items).Success?
    ensures var after := SetInventory(list, characterId, items).value;
            var i := FirstIndexOf(after, Some(characterId));
            0 <= i && after[i].inventory == items && after[i].id == Some(characterId)
    ensures DistinctIds(list) ==> DistinctIds(SetInventory(list, characterId, items).value)
  {
    var after := SetInventory(list, characterId, items).value;
    var i := FirstIndexOf(list, Some(characterId));
    assert forall k :: 0 <= k < |list| ==> after[k].id == list[k].id;
    assert FirstIndexOf(after, Some(characterId)) == i;
  }
}
