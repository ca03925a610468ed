/** The older character record (views/characters/Characters.kt): an integer id,
    no race, three field rules, and the structural equality and hash that a
    Kotlin data class gets when it overrides neither. Its inventory holds the
    shared items, which compare by id. */
module LegacyCharacters {
  import opened Wrappers
  import FormFields
  import Dnd

  datatype Character = Character(
    id: Option<Dnd.Int32>,
    name: string,
    dndClass: string,
    level: Dnd.Int32,
    inventory: seq<Dnd.Item>)
  {
    function NameField(): FormFields.FormField
    {
      FormFields.Of(name, Dnd.NotBlank)
    }

    function ClassField(): FormFields.FormField
    {
      FormFields.Of(dndClass, Dnd.NotBlank)
    }

    function LevelField(): FormFields.FormField
    {
      FormFields.Of(level, Dnd.LevelInRange)
    }

    /** `nameField.isValid && classField.isValid && levelField.isValid` */
    predicate IsValid()
    {
      NameField().isValid && ClassField().isValid && LevelField().isValid
    }

    /** The generated data-class `equals`: another legacy character whose every
        constructor property is equal; the inventories are compared as lists,
        element by element with the items' own (id-only) equality. */
    predicate Equals(other: Option<Character>)
    {
      match other
      case None => false
      case Some(that) =>
        id == that.id && name == that.name && dndClass == that.dndClass
        && level == that.level && ItemListEquals(inventory, that.inventory)
    }

    /** The generated data-class `hashCode`: the property hashes folded as
        result * 31 + next, with `Int` wrap-around. */
    function HashCode(): Dnd.Int32
    {
      var h0 := match id case Some(n) => n case None => 0;
      var h1 := Dnd.Wrap(31 * h0 as int + Dnd.StringHash(name) as int);
      var h2 := Dnd.Wrap(31 * h1 as int + Dnd.StringHash(dndClass) as int);
      var h3 := Dnd.Wrap(31 * h2 as int + level as int);
      Dnd.Wrap(31 * h3 as int + ItemListHash(inventory) as int)
    }
  }

  /** `List.equals` on item lists: same size and pairwise `Item.equals`. */
  predicate ItemListEquals(a: seq<Dnd.Item>, b: seq<Dnd.Item>)
  {
    |a| == |b| && forall k :: 0 <= k < |a| ==> a[k].Equals(Dnd.AnItem(b[k]))
  }

  /** `List.hashCode`: h := 31 * h + element hash for each element, from 1. */
  function ItemListHash(items: seq<Dnd.Item>): Dnd.Int32
  {
    if items == [] then 1
    else Dnd.Wrap(31 * ItemListHash(items[..|items| - 1]) as int + items[|items| - 1].HashCode() as int)
  }

  /** `Character(name = …, dndClass = …, level = …)` with the defaults. */
  function NewCharacter(name: string, dndClass: string, level: Dnd.Int32): (c: Character)
    ensures c.id == None && c.inventory == []
    ensures c.name == name && c.dndClass == dndClass && c.level == level
  {
    Character(None, name, dndClass, level, [])
  }

  /** Validity is the conjunction of the name, class and level rules: there is
      no race to check, and id and inventory play no part. */
  lemma IsValidIff(c: Character)
    ensures c.IsValid() <==>
      (exists k :: 0 <= k < |c.name| && !Dnd.IsWhitespace(c.name[k]))
      && (exists k :: 0 <= k < |c.dndClass| && !Dnd.IsWhitespace(c.dndClass[k]))
      && 1 <= c.level <= 20
  {
    Dnd.IsBlankIff(c.name);
    Dnd.IsBlankIff(c.dndClass);
  }

  /** The legacy and the shared validators agree on every field they share;
      the shared one additionally demands a non-blank race. */
  lemma AgreesWithSharedValidator(c: Character, race: string)
    ensures var d := Dnd.NewCharacter(c.name, race, c.dndClass, c.level);
            d.IsValid() <==> c.IsValid() && Dnd.NotBlank(race)
  {
    Dnd.IsValidIff(Dnd.NewCharacter(c.name, race, c.dndClass, c.level));
  }

  /** Equality is structural: sharing an id is not enough, every property
      must match, with inventory items matched by id. */
  lemma EqualityIsStructural(a: Character, b: Character)
    ensures a.Equals(Some(b)) <==>
      a.id == b.id && a.name == b.name && a.dndClass == b.dndClass && a.level == b.level
      && |a.inventory| == |b.inventory|
      && forall k :: 0 <= k < |a.inventory| ==> a.inventory[k].id == b.inventory[k].id
    ensures !a.Equals(None)
    ensures a.name != b.name ==> !a.Equals(Some(b.(id := a.id)))
  {
  }

  /** Item lists that are equal element by element hash alike. */
  lemma {:induction false} ItemListHashRespectsEquality(a: seq<Dnd.Item>, b: seq<Dnd.Item>)
    requires ItemListEquals(a, b)
    ensures ItemListHash(a) == ItemListHash(b)
  {
    if a != [] {
      var n := |a| - 1;
      assert ItemListEquals(a[..n], b[..n]) by {
        forall k | 0 <= k < n ensures a[..n][k].Equals(Dnd.AnItem(b[..n][k])) {
          assert a[..n][k] == a[k] && b[..n][k] == b[k];
        }
      }
      ItemListHashRespectsEquality(a[..n], b[..n]);
      assert a[n].id == b[n].id;
    }
  }

  /** The generated `hashCode` is consistent with the generated `equals`. */
  lemma HashRespectsEquality(a: Character, b: Character)
    requires a.Equals(Some(b))
    ensures a.HashCode() == b.HashCode()
  {
    ItemListHashRespectsEquality(a.inventory, b.inventory);
  }
}
