/** The prototype `copy()` methods of prac6shablon/src/Main.java. Objects
    live in an explicit heap so that sharing is observable: a deep copy must
    allocate a fresh weapon, defense, ability list and abilities, and a later
    change to the clone must not show through the original. */
module Prototype {
  import Strings

  type Ref = nat

  datatype Obj =
    | Armament(title: string, attackPower: int)
    | Defense(title: string, protection: int)
    | Ability(title: string, kind: string)
    | AbilityList(items: seq<Ref>)
    | Character(name: string, vitality: int, power: int, agility: int, intellect: int,
                weapon: Ref, defense: Ref, abilities: Ref)

  /** Allocated objects and the next free reference. */
  datatype Heap = Heap(objs: map<Ref, Obj>, next: Ref)

  predicate Valid(h: Heap)
  {
    forall r | r in h.objs :: r < h.next
  }

  /** `new`: stores the object under the next free reference. */
  function Alloc(h: Heap, o: Obj): (r: (Heap, Ref))
    requires Valid(h)
    ensures Valid(r.0) && r.1 == h.next && r.1 !in h.objs && r.0.next == h.next + 1
    ensures r.0.objs == h.objs[h.next := o]
  {
    (Heap(h.objs[h.next := o], h.next + 1), h.next)
  }

  /** Every object of `h` is still there, unchanged, in `h'`. */
  predicate Extends(h: Heap, h': Heap)
  {
    forall x | x in h.objs :: x in h'.objs && h'.objs[x] == h.objs[x]
  }

  predicate IsAbility(h: Heap, a: Ref)
  {
    a in h.objs && h.objs[a].Ability?
  }

  predicate AllAbilities(h: Heap, items: seq<Ref>)
  {
    forall i | 0 <= i < |items| :: IsAbility(h, items[i])
  }

  /** A character whose weapon, defense and ability list are allocated. */
  predicate WfCharacter(h: Heap, c: Ref)
  {
    && c in h.objs && h.objs[c].Character?
    && h.objs[c].weapon in h.objs && h.objs[h.objs[c].weapon].Armament?
    && h.objs[c].defense in h.objs && h.objs[h.objs[c].defense].Defense?
    && h.objs[c].abilities in h.objs && h.objs[h.objs[c].abilities].AbilityList?
    && AllAbilities(h, h.objs[h.objs[c].abilities].items)
  }

  function AbilitiesOf(h: Heap, c: Ref): seq<Ref>
    requires WfCharacter(h, c)
  {
    h.objs[h.objs[c].abilities].items
  }

  // ---------------------------------------------------------------------
  // toString

  function ItemText(o: Obj): string
  {
    match o
    case Armament(t, a) => "Оружие: " + t + ", Сила атаки: " + Strings.IntToString(a)
    case Defense(t, p) => "Защита: " + t + ", Уровень защиты: " + Strings.IntToString(p)
    case Ability(t, k) => "Навык: " + t + ", Тип: " + k
    case _ => ""
  }

  function AbilitiesText(h: Heap, items: seq<Ref>): string
    requires AllAbilities(h, items)
  {
    if |items| == 0 then "" else ItemText(h.objs[items[0]]) + "\n" + AbilitiesText(h, items[1..])
  }

  /** `GameCharacter.toString`: the character's own lines, then one line per
      ability. */
  function CharacterText(h: Heap, c: Ref): string
    requires WfCharacter(h, c)
  {
    var ch := h.objs[c];
    HeadText(ch.name, ch.vitality, ch.power, ch.agility, ch.intellect, h.objs[ch.weapon], h.objs[ch.defense])
    + AbilitiesText(h, AbilitiesOf(h, c))
  }

  /** The lines of `GameCharacter.toString` before the abilities. */
  function HeadText(name: string, vitality: int, power: int, agility: int, intellect: int,
                    weapon: Obj, defense: Obj): string
  {
    "Персонаж: " + name + "\n"
    + "Жизненная сила: " + Strings.IntToString(vitality) + "\n"
    + "Сила: " + Strings.IntToString(power) + "\n"
    + "Ловкость: " + Strings.IntToString(agility) + "\n"
    + "Интеллект: " + Strings.IntToString(intellect) + "\n"
    + ItemText(weapon) + "\n"
    + ItemText(defense) + "\n"
    + "Навыки:\n"
  }

  /** Abilities whose objects hold equal values render alike, wherever they
      live. */
  lemma {:induction false} AbilitiesTextPointwise(h: Heap, items: seq<Ref>, h': Heap, items': seq<Ref>)
    requires AllAbilities(h, items) && AllAbilities(h', items') && |items| == |items'|
    requires forall i | 0 <= i < |items| :: h'.objs[items'[i]] == h.objs[items[i]]
    ensures AbilitiesText(h', items') == AbilitiesText(h, items)
  {
    if |items| > 0 {
      AbilitiesTextPointwise(h, items[1..], h', items'[1..]);
    }
  }

  /** A character reads the same in any heap that keeps its objects. */
  lemma TextFrame(h: Heap, h': Heap, c: Ref)
    requires WfCharacter(h, c) && Extends(h, h')
    ensures WfCharacter(h', c)
    ensures AbilitiesOf(h', c) == AbilitiesOf(h, c)
    ensures CharacterText(h', c) == CharacterText(h, c)
  {
    var items := AbilitiesOf(h, c);
    assert AllAbilities(h', items) by {
      forall i | 0 <= i < |items|
        ensures IsAbility(h', items[i])
      {
        assert IsAbility(h, items[i]);
      }
    }
    AbilitiesTextPointwise(h, items, h', items);
  }

  // ---------------------------------------------------------------------
  // copy()

  /** `Armament.copy`, `Defense.copy` and `Ability.copy`: a new object with
      the same field values. */
  function CopyItem(o: Obj): (r: Obj)
    requires o.Armament? || o.Defense? || o.Ability?
    ensures r == o
  {
    match o
    case Armament(t, a) => Armament(t, a)
    case Defense(t, p) => Defense(t, p)
    case Ability(t, k) => Ability(t, k)
  }

  /** The loop of `GameCharacter.copy`: copies each ability in order and adds
      the copy to the clone's list `list`. */
  function CopyAbilities(h: Heap, list: Ref, items: seq<Ref>): (r: Heap)
    requires Valid(h) && list in h.objs && h.objs[list].AbilityList? && AllAbilities(h, items)
    ensures Valid(r) && r.next == h.next + |items|
    ensures forall x | x in h.objs && x != list :: x in r.objs && r.objs[x] == h.objs[x]
    ensures list in r.objs && r.objs[list].AbilityList?
    ensures r.objs[list].items == h.objs[list].items + seq(|items|, i => h.next + i)
    ensures forall x | h.next <= x < r.next :: x in r.objs && r.objs[x] == h.objs[items[x - h.next]]
    decreases |items|
  {
    if |items| == 0 then h
    else
      var (h1, a) := Alloc(h, CopyItem(h.objs[items[0]]));
      var h2 := Heap(h1.objs[list := AbilityList(h1.objs[list].items + [a])], h1.next);
      CopyAbilitiesHead(h, list, items, h2);
      var r := CopyAbilities(h2, list, items[1..]);
      CopyAbilitiesTail(h, list, items, h2, r);
      r
  }

  /** One step of the loop: the heap after copying the first ability. */
  lemma CopyAbilitiesHead(h: Heap, list: Ref, items: seq<Ref>, h2: Heap)
    requires Valid(h) && list in h.objs && h.objs[list].AbilityList? && AllAbilities(h, items) && |items| > 0
    requires h2 == Heap(h.objs[h.next := h.objs[items[0]]][list := AbilityList(h.objs[list].items + [h.next])], h.next + 1)
    ensures Valid(h2) && list in h2.objs && h2.objs[list].AbilityList? && AllAbilities(h2, items[1..])
    ensures forall x | x in h.objs && x != list :: x in h2.objs && h2.objs[x] == h.objs[x]
    ensures h.next in h2.objs && h2.objs[h.next] == h.objs[items[0]]
  {
    forall i | 0 <= i < |items| - 1
      ensures IsAbility(h2, items[1..][i])
    {
      assert IsAbility(h, items[i + 1]);
    }
  }

  /** The rest of the loop, stated against the heap before the first step. */
  lemma CopyAbilitiesTail(h: Heap, list: Ref, items: seq<Ref>, h2: Heap, r: Heap)
    requires Valid(h) && |items| > 0 && list in h.objs && h.objs[list].AbilityList? && AllAbilities(h, items)
    requires h2.next == h.next + 1 && list in h2.objs && h2.objs[list].AbilityList?
    requires h2.objs[list].items == h.objs[list].items + [h.next]
    requires forall x | x in h.objs && x != list :: x in h2.objs && h2.objs[x] == h.objs[x]
    requires h.next in h2.objs && h2.objs[h.next] == h.objs[items[0]]
    requires r.next == h2.next + |items[1..]|
    requires forall x | x in h2.objs && x != list :: x in r.objs && r.objs[x] == h2.objs[x]
    requires list in r.objs && r.objs[list].AbilityList? && r.objs[list].items == h2.objs[list].items + seq(|items[1..]|, i => h2.next + i)
    requires forall x | h2.next <= x < r.next :: x in r.objs && r.objs[x] == h2.objs[items[1..][x - h2.next]]
    ensures forall x | x in h.objs && x != list :: x in r.objs && r.objs[x] == h.objs[x]
    ensures r.objs[list].items == h.objs[list].items + seq(|items|, i => h.next + i)
    ensures forall x | h.next <= x < r.next :: x in r.objs && r.objs[x] == h.objs[items[x - h.next]]
  {
    assert seq(|items|, i => h.next + i) == [h.next] + seq(|items[1..]|, i => h2.next + i);
    forall x | h.next <= x < r.next
      ensures x in r.objs && r.objs[x] == h.objs[items[x - h.next]]
    {
      if x == h.next {
        assert h.next !in h.objs;
      } else {
        assert items[1..][x - h2.next] == items[x - h.next];
        assert IsAbility(h, items[x - h.next]);
      }
    }
  }

  /** The objects `GameCharacter.copy` allocates before its loop: copies of
      the weapon and the defense, an empty ability list, and the new
      character pointing at them. */
  function CopyShell(h: Heap, c: Ref): (r: (Heap, Ref))
    requires Valid(h) && WfCharacter(h, c)
    ensures Valid(r.0) && r.0.next == h.next + 4 && r.1 == h.next + 3 && Extends(h, r.0)
    ensures h.next in r.0.objs && r.0.objs[h.next] == h.objs[h.objs[c].weapon]
    ensures h.next + 1 in r.0.objs && r.0.objs[h.next + 1] == h.objs[h.objs[c].defense]
    ensures h.next + 2 in r.0.objs && r.0.objs[h.next + 2] == AbilityList([])
    ensures r.1 in r.0.objs
    ensures r.0.objs[r.1] == h.objs[c].(weapon := h.next, defense := h.next + 1, abilities := h.next + 2)
  {
    var ch := h.objs[c];
    var (h1, w) := Alloc(h, CopyItem(h.objs[ch.weapon]));
    var (h2, d) := Alloc(h1, CopyItem(h.objs[ch.defense]));
    var (h3, l) := Alloc(h2, AbilityList([]));
    Alloc(h3, Character(ch.name, ch.vitality, ch.power, ch.agility, ch.intellect, w, d, l))
  }

  /** `c'` in `h'` is a deep copy of `c` in `h`: the clone and everything it
      points to are objects `h` does not hold; its fields, weapon and defense
      hold the original's values and its abilities copy the original's one
      for one, in order. */
  predicate DeepCopyOf(h: Heap, c: Ref, h': Heap, c': Ref)
    requires WfCharacter(h, c) && WfCharacter(h', c')
  {
    ShellCopyOf(h, c, h', c') && AbilitiesCopyOf(h, c, h', c')
  }

  /** The clone's own fields, weapon, defense and list. */
  predicate ShellCopyOf(h: Heap, c: Ref, h': Heap, c': Ref)
    requires WfCharacter(h, c) && WfCharacter(h', c')
  {
    var ch := h.objs[c];
    var ch' := h'.objs[c'];
    && c' !in h.objs
    && ch'.name == ch.name && ch'.vitality == ch.vitality && ch'.power == ch.power
    && ch'.agility == ch.agility && ch'.intellect == ch.intellect
    && ch'.weapon !in h.objs && h'.objs[ch'.weapon] == h.objs[ch.weapon]
    && ch'.defense !in h.objs && h'.objs[ch'.defense] == h.objs[ch.defense]
    && ch'.abilities !in h.objs
  }

  /** The clone's abilities copy the original's one for one, in order. */
  predicate AbilitiesCopyOf(h: Heap, c: Ref, h': Heap, c': Ref)
    requires WfCharacter(h, c) && WfCharacter(h', c')
  {
    var items := AbilitiesOf(h, c);
    var items' := AbilitiesOf(h', c');
    && |items'| == |items|
    && (forall i | 0 <= i < |items| :: items'[i] !in h.objs && h'.objs[items'[i]] == h.objs[items[i]])
  }

  /** `GameCharacter.copy`: allocates the clone and everything it points to;
      no existing object changes. */
  function CopyCharacter(h: Heap, c: Ref): (r: (Heap, Ref))
    requires Valid(h) && WfCharacter(h, c)
    ensures Valid(r.0) && Extends(h, r.0) && WfCharacter(r.0, r.1)
  {
    var shell := CopyShell(h, c);
    var h4, c' := shell.0, shell.1;
    var l := h.next + 2;
    var items := AbilitiesOf(h, c);
    AbilitiesSurvive(h, h4, items);
    var h5 := CopyAbilities(h4, l, items);
    CopiedAbilitiesAreFresh(h, h4, l, items);
    (h5, c')
  }

  /** The clone `GameCharacter.copy` returns is a deep copy. */
  lemma CopyCharacterIsDeep(h: Heap, c: Ref)
    requires Valid(h) && WfCharacter(h, c)
    ensures var r := CopyCharacter(h, c); DeepCopyOf(h, c, r.0, r.1)
  {
    var shell := CopyShell(h, c);
    var h4, c' := shell.0, shell.1;
    var l := h.next + 2;
    var items := AbilitiesOf(h, c);
    AbilitiesSurvive(h, h4, items);
    var h5 := CopyAbilities(h4, l, items);
    assert CopyCharacter(h, c) == (h5, c');
    CopiedAbilitiesAreFresh(h, h4, l, items);
  }

  /** Allocating keeps every existing object. */
  lemma AllocExtends(h: Heap, o: Obj)
    requires Valid(h)
    ensures Extends(h, Alloc(h, o).0)
  {
  }

  lemma ExtendsTransitive(h1: Heap, h2: Heap, h3: Heap)
    requires Extends(h1, h2) && Extends(h2, h3)
    ensures Extends(h1, h3)
  {
  }

  /** Abilities of `h` are still abilities, with the same values, in a heap
      that extends it. */
  lemma AbilitiesSurvive(h: Heap, h': Heap, items: seq<Ref>)
    requires AllAbilities(h, items) && Extends(h, h')
    ensures AllAbilities(h', items)
    ensures forall i | 0 <= i < |items| :: h'.objs[items[i]] == h.objs[items[i]]
  {
    forall i | 0 <= i < |items|
      ensures IsAbility(h', items[i]) && h'.objs[items[i]] == h.objs[items[i]]
    {
      assert IsAbility(h, items[i]);
    }
  }

  /** The abilities the loop of `GameCharacter.copy` allocates are new to
      `h` and hold the values of the abilities they copy. */
  lemma CopiedAbilitiesAreFresh(h: Heap, h4: Heap, l: Ref, items: seq<Ref>)
    requires Valid(h) && AllAbilities(h, items) && Valid(h4) && h.next <= h4.next
    requires l in h4.objs && h4.objs[l] == AbilityList([]) && AllAbilities(h4, items)
    requires forall i | 0 <= i < |items| :: h4.objs[items[i]] == h.objs[items[i]]
    ensures var h5 := CopyAbilities(h4, l, items);
      var items' := h5.objs[l].items;
      && |items'| == |items| && AllAbilities(h5, items')
      && forall i | 0 <= i < |items| :: items'[i] !in h.objs && h5.objs[items'[i]] == h.objs[items[i]]
  {
    forall i | 0 <= i < |items|
      ensures var h5 := CopyAbilities(h4, l, items);
        var items' := h5.objs[l].items;
        IsAbility(h5, items'[i]) && items'[i] !in h.objs && h5.objs[items'[i]] == h.objs[items[i]]
    {
      CopiedAbilityAt(h, h4, l, items, i);
    }
  }

  /** The `i`th ability the loop allocates. */
  lemma CopiedAbilityAt(h: Heap, h4: Heap, l: Ref, items: seq<Ref>, i: nat)
    requires Valid(h) && AllAbilities(h, items) && Valid(h4) && h.next <= h4.next
    requires l in h4.objs && h4.objs[l] == AbilityList([]) && AllAbilities(h4, items)
    requires i < |items| && h4.objs[items[i]] == h.objs[items[i]]
    ensures var h5 := CopyAbilities(h4, l, items);
      var items' := h5.objs[l].items;
      && |items'| == |items| && items'[i] == h4.next + i
      && IsAbility(h5, items'[i]) && items'[i] !in h.objs && h5.objs[items'[i]] == h.objs[items[i]]
  {
    var n := h4.next;
    var h5 := CopyAbilities(h4, l, items);
    var items' := h5.objs[l].items;
    assert items' == [] + seq(|items|, j => n + j);
    var x := n + i;
    assert items'[i] == x && x - n == i;
    assert x in h5.objs && h5.objs[x] == h4.objs[items[i]];
    assert IsAbility(h, items[i]);
  }

  /** The clone prints exactly as the original does, and the original still
      prints as before. */
  lemma CopyRendersAlike(h: Heap, c: Ref)
    requires Valid(h) && WfCharacter(h, c)
    ensures var r := CopyCharacter(h, c);
      && WfCharacter(r.0, c)
      && CharacterText(r.0, r.1) == CharacterText(h, c)
      && CharacterText(r.0, c) == CharacterText(h, c)
  {
    var r := CopyCharacter(h, c);
    CopyCharacterIsDeep(h, c);
    TextFrame(h, r.0, c);
    AbilitiesTextPointwise(h, AbilitiesOf(h, c), r.0, AbilitiesOf(r.0, r.1));
  }

  /** `GameCharacter.addAbility`: appends `a` to the character's list; only
      that list changes. */
  function AddAbility(h: Heap, c: Ref, a: Ref): (r: Heap)
    requires WfCharacter(h, c) && IsAbility(h, a)
    ensures WfCharacter(r, c) && r.next == h.next
    ensures AbilitiesOf(r, c) == AbilitiesOf(h, c) + [a]
    ensures forall x | x in h.objs && x != h.objs[c].abilities :: x in r.objs && r.objs[x] == h.objs[x]
    ensures r.objs.Keys == h.objs.Keys
  {
    var l := h.objs[c].abilities;
    var r := Heap(h.objs[l := AbilityList(h.objs[l].items + [a])], h.next);
    assert AllAbilities(r, AbilitiesOf(h, c) + [a]) by {
      var items := AbilitiesOf(h, c) + [a];
      forall i | 0 <= i < |items|
        ensures IsAbility(r, items[i])
      {
        if i < |items| - 1 {
          assert IsAbility(h, AbilitiesOf(h, c)[i]);
        }
      }
    }
    r
  }

  /** Rendering a list with one more ability adds that ability's line. */
  lemma {:induction false} AbilitiesTextAppend(h: Heap, items: seq<Ref>, a: Ref)
    requires AllAbilities(h, items) && IsAbility(h, a)
    ensures AllAbilities(h, items + [a])
    ensures AbilitiesText(h, items + [a]) == AbilitiesText(h, items) + ItemText(h.objs[a]) + "\n"
  {
    assert AllAbilities(h, items + [a]) by {
      forall i | 0 <= i < |items| + 1
        ensures IsAbility(h, (items + [a])[i])
      {
        if i < |items| {
          assert IsAbility(h, items[i]);
        }
      }
    }
    if |items| == 0 {
      assert items + [a] == [a];
    } else {
      assert (items + [a])[1..] == items[1..] + [a];
      AbilitiesTextAppend(h, items[1..], a);
    }
  }

  /** After `addAbility` the character prints one more ability line. */
  lemma AddAbilityText(h: Heap, c: Ref, a: Ref)
    requires WfCharacter(h, c) && IsAbility(h, a)
    ensures CharacterText(AddAbility(h, c, a), c) == CharacterText(h, c) + ItemText(h.objs[a]) + "\n"
  {
    var h' := AddAbility(h, c, a);
    var items := AbilitiesOf(h, c);
    var ch := h.objs[c];
    assert h'.objs[c] == ch && h'.objs[ch.weapon] == h.objs[ch.weapon] && h'.objs[ch.defense] == h.objs[ch.defense];
    var head := HeadText(ch.name, ch.vitality, ch.power, ch.agility, ch.intellect, h.objs[ch.weapon], h.objs[ch.defense]);
    var t, x := AbilitiesText(h, items), ItemText(h.objs[a]);
    AbilitiesTextAppend(h, items, a);
    AbilitiesTextPointwise(h, items + [a], h', items + [a]);
    assert CharacterText(h', c) == head + (t + x + "\n");
    Regroup(head, t, x, "\n");
  }

  /** Regrouping of a concatenation, stated over plain strings so that the
      proof above need not look inside the character's literal text. */
  lemma Regroup(a: string, b: string, c: string, d: string)
    ensures a + (b + c + d) == a + b + c + d
  {
  }

  /** `addAbility` on a character whose list `h` does not hold leaves every
      character of `h` printing as before. */
  lemma AddAbilityElsewhere(h: Heap, c: Ref, h2: Heap, c2: Ref, a: Ref)
    requires WfCharacter(h, c) && Extends(h, h2)
    requires WfCharacter(h2, c2) && IsAbility(h2, a) && h2.objs[c2].abilities !in h.objs
    ensures WfCharacter(AddAbility(h2, c2, a), c)
    ensures CharacterText(AddAbility(h2, c2, a), c) == CharacterText(h, c)
  {
    TextFrame(h, AddAbility(h2, c2, a), c);
  }

  /** Clones are independent: teaching the clone a new ability shows in the
      clone's text and leaves the original's text as it was. */
  lemma CloneIsIndependent(h: Heap, c: Ref, title: string, kind: string)
    requires Valid(h) && WfCharacter(h, c)
    ensures var clone := CopyCharacter(h, c);
      var taught := Alloc(clone.0, Ability(title, kind));
      WfCharacter(taught.0, clone.1) && IsAbility(taught.0, taught.1) &&
      var h3 := AddAbility(taught.0, clone.1, taught.1);
      && WfCharacter(h3, c)
      && CharacterText(h3, c) == CharacterText(h, c)
      && CharacterText(h3, clone.1) == CharacterText(h, c) + ItemText(Ability(title, kind)) + "\n"
  {
    var clone := CopyCharacter(h, c);
    var h1, c1 := clone.0, clone.1;
    var taught := Alloc(h1, Ability(title, kind));
    var h2, a := taught.0, taught.1;
    CloneIsSeparate(h, c);
    AllocExtends(h1, Ability(title, kind));
    ExtendsTransitive(h, h1, h2);
    TextFrame(h1, h2, c1);
    AddAbilityElsewhere(h, c, h2, c1, a);
    AddAbilityText(h2, c1, a);
  }

  /** What the independence of a clone rests on: the clone prints as the
      original and its ability list is an object the original's heap does
      not hold. */
  lemma CloneIsSeparate(h: Heap, c: Ref)
    requires Valid(h) && WfCharacter(h, c)
    ensures var r := CopyCharacter(h, c);
      && Valid(r.0) && Extends(h, r.0) && WfCharacter(r.0, r.1)
      && r.0.objs[r.1].abilities !in h.objs
      && CharacterText(r.0, r.1) == CharacterText(h, c)
  {
    CopyRendersAlike(h, c);
    CopyCharacterIsDeep(h, c);
  }
}
