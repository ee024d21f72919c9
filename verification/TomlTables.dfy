/** Tables and arrays of a TOML document as objects that the parser fills in place. */
module TomlTables {
  import opened TomlDoc

  /** An element of an array: a raw value, an array, or a table. */
  datatype Element = Raw(valtype: char, val: string) | SubArray(arr: Arr) | SubTable(tab: Table)

  class Table {
    const key: string

    /** Its number in the order of creation. */
    ghost const id: nat

    var isImplicit: bool
    var isReadonly: bool
    var kvals: seq<KeyVal>
    var arrs: seq<Arr>
    var tabs: seq<Table>

    /** How often the table was made explicit. */
    ghost var timesMadeExplicit: nat

    constructor (key: string, isImplicit: bool, ghost id: nat)
      ensures this.key == key && this.id == id && arrs == [] && tabs == []
      ensures Val() == ROOT.(key := key, isImplicit := isImplicit)
    {
      this.key, this.isImplicit, isReadonly := key, isImplicit, false;
      kvals, arrs, tabs, timesMadeExplicit := [], [], [], 0;
      this.id := id;
    }

    ghost function Val(): TableVal
      reads this
    {
      TableVal(key, kvals, ArrIds(arrs), TabIds(tabs), isImplicit, isReadonly, timesMadeExplicit)
    }
  }

  class Arr {
    const key: string
    ghost const id: nat

    /** Element kind: 'v'alue, 'a'rray, 't'able or 'm'ixed; NUL while there are no elements yet. */
    var kind: char
    var valtype: char
    var items: seq<Element>

    constructor (key: string, ghost id: nat)
      ensures this.key == key && this.id == id && items == [] && Val() == EmptyArray(key)
    {
      this.key, kind, valtype, items := key, '\0', '\0', [];
      this.id := id;
    }

    ghost function Val(): ArrVal
      reads this
    {
      ArrVal(key, kind, valtype, Items(items))
    }

    /** An element behind the others, and what it makes of the kind and the value type of the array. */
    method Push(item: Element)
      modifies this
      ensures items == old(items) + [item] && Val() == Pushed(old(Val()), ItemOf(item))
    {
      var itemKind := match item
        case Raw(_, _) => 'v'
        case SubArray(_) => 'a'
        case SubTable(_) => 't';
      if kind == '\0' {
        kind := itemKind;
      } else if kind != itemKind {
        kind := 'm';
      }
      ItemsAppend(items, item);
      items := items + [item];
      if item.Raw? {
        if |items| == 1 {
          valtype := item.valtype;
        } else if valtype != item.valtype {
          valtype := 'm';
        }
      }
    }
  }

  ghost function ArrIds(s: seq<Arr>): (ids: seq<nat>)
    ensures |ids| == |s|
  {
    seq(|s|, i requires 0 <= i < |s| => s[i].id)
  }

  ghost function TabIds(s: seq<Table>): (ids: seq<nat>)
    ensures |ids| == |s|
  {
    seq(|s|, i requires 0 <= i < |s| => s[i].id)
  }

  ghost function ItemOf(item: Element): Item {
    match item
    case Raw(valtype, val) => Value(valtype, val)
    case SubArray(a) => Nested(a.id)
    case SubTable(t) => Inline(t.id)
  }

  ghost function Items(s: seq<Element>): (items: seq<Item>)
    ensures |items| == |s|
  {
    seq(|s|, i requires 0 <= i < |s| => ItemOf(s[i]))
  }

  lemma ItemsAppend(s: seq<Element>, item: Element)
    ensures Items(s + [item]) == Items(s) + [ItemOf(item)]
  {
  }

  lemma ArrIdsAppend(s: seq<Arr>, a: Arr)
    ensures ArrIds(s + [a]) == ArrIds(s) + [a.id]
  {
  }

  lemma TabIdsAppend(s: seq<Table>, t: Table)
    ensures TabIds(s + [t]) == TabIds(s) + [t.id]
  {
  }
}
