/** Domain records of the item manager (services/dnd.kt): catalog items and
    player characters. Both override equality so that identity is the `id`
    field alone, and a character derives its validity from four field rules. */
module Dnd {
  import opened Wrappers
  import FormFields

  // ---------------------------------------------------------------------------
  // Kotlin `Int`, `String.hashCode` and `String.isBlank`
  // ---------------------------------------------------------------------------

  /** Kotlin's 32-bit signed `Int`. */
  newtype Int32 = x: int | -0x8000_0000 <= x < 0x8000_0000

  const TwoTo32: int := 0x1_0000_0000

  /** Two's-complement wrap-around of an exact integer into `Int`, which is what
      JVM `Int` arithmetic does on overflow. */
  function Wrap(x: int): (r: Int32)
    ensures (r as int - x) % TwoTo32 == 0
    ensures -0x8000_0000 <= x < 0x8000_0000 ==> r as int == x
  {
    var m := x % TwoTo32;
    if m < 0x8000_0000 then
      assert m - x == -(x / TwoTo32) * TwoTo32;
      m as Int32
    else
      assert m - TwoTo32 - x == -(x / TwoTo32 + 1) * TwoTo32;
      (m - TwoTo32) as Int32
  }

  /** The UTF-16 code units of a character: one below U+10000, a surrogate
      pair above it. A JVM string is a sequence of such units. */
  function CodeUnits(c: char): (units: seq<int>)
    ensures 1 <= |units| <= 2
    ensures forall k :: 0 <= k < |units| ==> 0 <= units[k] < 0x1_0000
  {
    var n := c as int;
    if n < 0x1_0000 then [n]
    else [0xD800 + (n - 0x1_0000) / 0x400, 0xDC00 + (n - 0x1_0000) % 0x400]
  }

  function Utf16(s: string): (units: seq<int>)
    ensures |s| <= |units| <= 2 * |s|
  {
    if s == [] then [] else CodeUnits(s[0]) + Utf16(s[1..])
  }

  /** `hashCode` of a list of UTF-16 units: h := 31 * h + unit for each unit,
      starting from 0, with `Int` wrap-around. */
  function UnitsHash(units: seq<int>): Int32
  {
    if units == [] then 0
    else Wrap(31 * UnitsHash(units[..|units| - 1]) as int + units[|units| - 1])
  }

  /** `String.hashCode()` on the JVM. */
  function StringHash(s: string): Int32
  {
    UnitsHash(Utf16(s))
  }

  /** `Char.isWhitespace()`: the Unicode space, line and paragraph separators
      together with the ASCII controls U+0009..U+000D and U+001C..U+001F. */
  predicate IsWhitespace(c: char)
  {
    var n := c as int;
    || 0x09 <= n <= 0x0D
    || 0x1C <= n <= 0x20
    || n == 0xA0
    || n == 0x1680
    || 0x2000 <= n <= 0x200A
    || n == 0x2028
    || n == 0x2029
    || n == 0x202F
    || n == 0x205F
    || n == 0x3000
  }

  /** `CharSequence.isBlank()`: every character is whitespace, checked one
      character at a time (so the empty string is blank). */
  predicate IsBlank(s: string)
  {
    s == [] || (IsWhitespace(s[0]) && IsBlank(s[1..]))
  }

  /** Blank means empty or whitespace only; not blank means some character
      is not whitespace. */
  lemma {:induction false} IsBlankIff(s: string)
    ensures IsBlank(s) <==> forall k :: 0 <= k < |s| ==> IsWhitespace(s[k])
    ensures !IsBlank(s) <==> exists k :: 0 <= k < |s| && !IsWhitespace(s[k])
  {
    if s != [] {
      IsBlankIff(s[1..]);
      assert forall k :: 1 <= k < |s| ==> s[k] == s[1..][k - 1];
    }
  }

  // ---------------------------------------------------------------------------
  // Items
  // ---------------------------------------------------------------------------

  /** The argument of an overridden `equals(other: Any?)`: null, an item, a
      character, or an object of some other class. */
  datatype Obj = Null | AnItem(item: Item) | ACharacter(character: Character) | Foreign

  /** A catalog item. Only `id` is required; the rest are optional. */
  datatype Item = Item(
    id: string,
    name: Option<string>,
    rarity: Option<string>,
    source: Option<string>,
    description: Option<string>,
    imageUrl: Option<string>)
  {
    /** The overridden `equals`: an item equals another object exactly when that
        object is an item with the same id. (The reference-identity shortcut
        is subsumed: an object is always identical to itself by id.) */
    predicate Equals(other: Obj)
    {
      match other
      case AnItem(that) => id == that.id
      case _ => false
    }

    /** The overridden `hashCode`: the hash of the id string. */
    function HashCode(): Int32
    {
      StringHash(id)
    }
  }

  /** `Item(id)` with every optional field left at its default. */
  function NewItem(id: string): (item: Item)
    ensures item.id == id
    ensures item.name == item.rarity == item.source == None
    ensures item.description == item.imageUrl == None
  {
    Item(id, None, None, None, None, None)
  }

  /** Items are equal exactly when their ids are, whatever their other fields;
      equal items hash alike; nothing but an item equals an item. */
  lemma ItemIdentity(a: Item, b: Item)
    ensures a.Equals(AnItem(b)) <==> a.id == b.id
    ensures a.Equals(AnItem(b)) ==> a.HashCode() == b.HashCode()
    ensures a.Equals(AnItem(b.(name := a.name, rarity := a.rarity, source := a.source,
                               description := a.description, imageUrl := a.imageUrl)))
            <==> a.Equals(AnItem(b))
    ensures !a.Equals(Null) && !a.Equals(Foreign)
    ensures forall c: Character :: !a.Equals(ACharacter(c))
  {
  }

  /** Id equality on items is an equivalence relation, as `equals` must be. */
  lemma ItemEqualityIsEquivalence(a: Item, b: Item, c: Item)
    ensures a.Equals(AnItem(a))
    ensures a.Equals(AnItem(b)) ==> b.Equals(AnItem(a))
    ensures a.Equals(AnItem(b)) && b.Equals(AnItem(c)) ==> a.Equals(AnItem(c))
  {
  }

  // ---------------------------------------------------------------------------
  // Characters
  // ---------------------------------------------------------------------------

  /** The rule of the name, race and class fields: `value.isNotBlank()`. */
  predicate NotBlank(value: string)
  {
    !IsBlank(value)
  }

  /** The rule of the level field: `value in 1..20`. */
  predicate LevelInRange(value: Int32)
  {
    1 <= value <= 20
  }

  /** Kotlin's `List.all { it.isValid }`. */
  predicate AllValid(fields: seq<FormFields.FormField>)
  {
    forall k :: 0 <= k < |fields| ==> fields[k].isValid
  }

  /** A player character. `id` is null until the roster assigns one. */
  datatype Character = Character(
    id: Option<string>,
    avatarUrl: Option<string>,
    name: string,
    race: string,
    dndClass: string,
    level: Int32,
    strengthScore: Option<Int32>,
    dexterityScore: Option<Int32>,
    constitutionScore: Option<Int32>,
    intelligenceScore: Option<Int32>,
    wisdomScore: Option<Int32>,
    charismaScore: Option<Int32>,
    inventory: seq<Item>)
  {
    function NameField(): FormFields.FormField
    {
      FormFields.Of(name, NotBlank)
    }

    function RaceField(): FormFields.FormField
    {
      FormFields.Of(race, NotBlank)
    }

    function ClassField(): FormFields.FormField
    {
      FormFields.Of(dndClass, NotBlank)
    }

    function LevelField(): FormFields.FormField
    {
      FormFields.Of(level, LevelInRange)
    }

    /** `listOf(nameField, raceField, classField, levelField).all { it.isValid }` */
    predicate IsValid()
    {
      AllValid([NameField(), RaceField(), ClassField(), LevelField()])
    }

    /** The overridden `equals`: a character equals another object exactly when
        that object is a character with the same id; two null ids are equal. */
    predicate Equals(other: Obj)
    {
      match other
      case ACharacter(that) => id == that.id
      case _ => false
    }

    /** The overridden `hashCode`: `id?.hashCode() ?: 0`. */
    function HashCode(): Int32
    {
      match id
      case Some(s) => StringHash(s)
      case None => 0
    }
  }

  /** `Character(name = …, race = …, dndClass = …, level = …)` with every other
      parameter left at its default. */
  function NewCharacter(name: string, race: string, dndClass: string, level: Int32): (c: Character)
    ensures c.id == None && c.inventory == [] && c.avatarUrl == None
    ensures c.strengthScore == c.dexterityScore == c.constitutionScore == None
    ensures c.intelligenceScore == c.wisdomScore == c.charismaScore == None
    ensures c.name == name && c.race == race && c.dndClass == dndClass && c.level == level
  {
    Character(None, None, name, race, dndClass, level, None, None, None, None, None, None, [])
  }

  /** Characters are equal exactly when their ids are (null equal to null),
      whatever their other fields; equal characters hash alike, and a
      character without an id hashes to 0. */
  lemma CharacterIdentity(a: Character, b: Character)
    ensures a.Equals(ACharacter(b)) <==> a.id == b.id
    ensures a.Equals(ACharacter(b)) ==> a.HashCode() == b.HashCode()
    ensures a.id == None ==> a.HashCode() == 0
    ensures a.Equals(ACharacter(b.(id := a.id)))
    ensures !a.Equals(Null) && !a.Equals(Foreign)
    ensures forall i: Item :: !a.Equals(AnItem(i))
  {
  }

  /** Id equality on characters is an equivalence relation. */
  lemma CharacterEqualityIsEquivalence(a: Character, b: Character, c: Character)
    ensures a.Equals(ACharacter(a))
    ensures a.Equals(ACharacter(b)) ==> b.Equals(ACharacter(a))
    ensures a.Equals(ACharacter(b)) && b.Equals(ACharacter(c)) ==> a.Equals(ACharacter(c))
  {
  }

  /** Each text field is valid exactly when its text has a character that is
      not whitespace: the empty string and whitespace-only strings fail. */
  lemma TextFieldsRejectBlank(c: Character)
    ensures c.NameField().isValid <==> exists k :: 0 <= k < |c.name| && !IsWhitespace(c.name[k])
    ensures c.RaceField().isValid <==> exists k :: 0 <= k < |c.race| && !IsWhitespace(c.race[k])
    ensures c.ClassField().isValid <==> exists k :: 0 <= k < |c.dndClass| && !IsWhitespace(c.dndClass[k])
  {
    IsBlankIff(c.name);
    IsBlankIff(c.race);
    IsBlankIff(c.dndClass);
  }

  /** The level field accepts exactly 1..20; 0 and 21 are the nearest rejects. */
  lemma LevelFieldRange(c: Character)
    ensures c.LevelField().isValid <==> 1 <= c.level <= 20
    ensures c.level == 0 || c.level == 21 ==> !c.LevelField().isValid
  {
  }

  /** A character is valid exactly when all four field rules hold. */
  lemma IsValidIff(c: Character)
    ensures c.IsValid() <==>
      NotBlank(c.name) && NotBlank(c.race) && NotBlank(c.dndClass) && 1 <= c.level <= 20
  {
    var fields := [c.NameField(), c.RaceField(), c.ClassField(), c.LevelField()];
    assert fields[0].isValid == NotBlank(c.name);
    assert fields[1].isValid == NotBlank(c.race);
    assert fields[2].isValid == NotBlank(c.dndClass);
    assert fields[3].isValid == (1 <= c.level <= 20);
    assert AllValid(fields) <==> fields[0].isValid && fields[1].isValid && fields[2].isValid && fields[3].isValid;
  }

  /** Validity depends on name, race, class and level alone: id, avatar,
      ability scores and inventory play no part. */
  lemma ValidityIgnoresOtherFields(c: Character, d: Character)
    requires c.name == d.name && c.race == d.race && c.dndClass == d.dndClass && c.level == d.level
    ensures c.IsValid() == d.IsValid()
  {
    IsValidIff(c);
    IsValidIff(d);
  }
}
