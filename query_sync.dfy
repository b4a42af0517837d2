/**
 * The page keeps its filter state in the address's query string, handled as a
 * `URLSearchParams` list (WHATWG URL Standard, section 6.2, "URLSearchParams
 * class"): an ordered list of name-value pairs in which a name may repeat.
 */
module QuerySync {
  import opened Seqs
  import opened Directory

  datatype Pair = Pair(name: string, value: string)

  type Store = seq<Pair>

  datatype Option<T> = None | Some(value: T)

  const SearchKey := "search"
  const ConsultationKey := "consultation"
  const SpecialtiesKey := "specialties"
  const SortKey := "sort"

  /** `getAll(name)`: the values of the pairs called `name`, in list order. */
  function GetAll(ps: Store, name: string): seq<string>
    decreases |ps|
  {
    if ps == [] then []
    else (if ps[0].name == name then [ps[0].value] else []) + GetAll(ps[1..], name)
  }

  /** `get(name)`: the value of the first pair called `name`, or null. */
  function Get(ps: Store, name: string): (r: Option<string>)
    ensures r == None <==> GetAll(ps, name) == []
    ensures r.Some? ==> r.value == GetAll(ps, name)[0]
    decreases |ps|
  {
    if ps == [] then None
    else if ps[0].name == name then Some(ps[0].value)
    else Get(ps[1..], name)
  }

  /** `get(name) || ''`, the way the page reads a single-valued key. */
  function GetOrEmpty(ps: Store, name: string): string
  {
    match Get(ps, name)
    case None => ""
    case Some(v) => v
  }

  function NamedOther(name: string): Pair -> bool
  {
    (p: Pair) => p.name != name
  }

  /** `delete(name)`: removes every pair called `name`. */
  function Delete(ps: Store, name: string): Store
  {
    Keep(ps, NamedOther(name))
  }

  /** `append(name, value)`: adds a pair at the end. */
  function Append(ps: Store, name: string, value: string): Store
  {
    ps + [Pair(name, value)]
  }

  /** The first pair called `name` takes `value`; the later ones are dropped. */
  function ReplaceFirst(ps: Store, name: string, value: string): Store
    decreases |ps|
  {
    if ps == [] then []
    else if ps[0].name == name then [Pair(name, value)] + Delete(ps[1..], name)
    else [ps[0]] + ReplaceFirst(ps[1..], name, value)
  }

  /**
   * `set(name, value)`: replaces the first pair called `name` and drops the
   * others, or appends a pair when there is none.
   */
  function Set(ps: Store, name: string, value: string): Store
  {
    if GetAll(ps, name) == [] then Append(ps, name, value) else ReplaceFirst(ps, name, value)
  }

  lemma {:induction false} GetAllAppend(a: Store, b: Store, name: string)
    ensures GetAll(a + b, name) == GetAll(a, name) + GetAll(b, name)
    decreases |a|
  {
    if a != [] {
      assert (a + b)[1..] == a[1..] + b;
      GetAllAppend(a[1..], b, name);
    } else {
      assert a + b == b;
    }
  }

  /** After `delete(name)` no pair is called `name`, and every other name reads as before. */
  lemma {:induction false} DeleteSpec(ps: Store, name: string, other: string)
    ensures GetAll(Delete(ps, name), name) == []
    ensures other != name ==> GetAll(Delete(ps, name), other) == GetAll(ps, other)
    decreases |ps|
  {
    if ps != [] {
      DeleteSpec(ps[1..], name, other);
      var head := if ps[0].name != name then [ps[0]] else [];
      GetAllAppend(head, Delete(ps[1..], name), name);
      GetAllAppend(head, Delete(ps[1..], name), other);
      assert [ps[0]][1..] == [];
    }
  }

  /** `append` adds one value at the end of `getAll(name)` and touches nothing else. */
  lemma AppendSpec(ps: Store, name: string, value: string, other: string)
    ensures GetAll(Append(ps, name, value), name) == GetAll(ps, name) + [value]
    ensures other != name ==> GetAll(Append(ps, name, value), other) == GetAll(ps, other)
  {
    GetAllAppend(ps, [Pair(name, value)], name);
    GetAllAppend(ps, [Pair(name, value)], other);
    assert [Pair(name, value)][1..] == [];
  }

  lemma {:induction false} DeleteTwice(ps: Store, name: string)
    ensures Delete(Delete(ps, name), name) == Delete(ps, name)
  {
    KeepAllMembers(ps, NamedOther(name));
    KeepAll(Delete(ps, name), NamedOther(name));
  }

  lemma {:induction false} ReplaceFirstSpec(ps: Store, name: string, value: string)
    requires GetAll(ps, name) != []
    ensures GetAll(ReplaceFirst(ps, name, value), name) == [value]
    ensures Delete(ReplaceFirst(ps, name, value), name) == Delete(ps, name)
    decreases |ps|
  {
    assert ps != [];
    var rest := ps[1..];
    if ps[0].name == name {
      DeleteSpec(rest, name, name);
      GetAllAppend([Pair(name, value)], Delete(rest, name), name);
      KeepAppend([Pair(name, value)], Delete(rest, name), NamedOther(name));
      KeepAllMembers(rest, NamedOther(name));
      KeepAll(Delete(rest, name), NamedOther(name));
      assert [Pair(name, value)][1..] == [];
    } else {
      ReplaceFirstSpec(rest, name, value);
      GetAllAppend([ps[0]], ReplaceFirst(rest, name, value), name);
      KeepAppend([ps[0]], ReplaceFirst(rest, name, value), NamedOther(name));
      assert [ps[0]][1..] == [];
    }
  }

  /**
   * After `set(name, value)` exactly one pair is called `name` and it holds
   * `value`; the pairs with other names are the same, in the same order.
   */
  lemma SetSpec(ps: Store, name: string, value: string)
    ensures GetAll(Set(ps, name, value), name) == [value]
    ensures Delete(Set(ps, name, value), name) == Delete(ps, name)
  {
    if GetAll(ps, name) == [] {
      AppendSpec(ps, name, value, name);
      KeepAppend(ps, [Pair(name, value)], NamedOther(name));
      assert [Pair(name, value)][1..] == [];
    } else {
      ReplaceFirstSpec(ps, name, value);
    }
  }

  /** When `name` is present, `set` writes in the position of its first pair. */
  lemma {:induction false} SetInPlace(ps: Store, name: string, value: string, i: nat)
    requires i < |ps| && ps[i].name == name && GetAll(ps[..i], name) == []
    ensures |Set(ps, name, value)| > i
    ensures Set(ps, name, value)[..i] == ps[..i]
    ensures Set(ps, name, value)[i] == Pair(name, value)
  {
    assert ps == ps[..i] + ps[i..];
    GetAllAppend(ps[..i], ps[i..], name);
    assert ps[i..][0] == ps[i];
    assert GetAll(ps, name) != [];
    ReplaceFirstAt(ps, name, value, i);
  }

  lemma {:induction false} ReplaceFirstAt(ps: Store, name: string, value: string, i: nat)
    requires i < |ps| && ps[i].name == name && GetAll(ps[..i], name) == []
    ensures |ReplaceFirst(ps, name, value)| > i
    ensures ReplaceFirst(ps, name, value)[..i] == ps[..i]
    ensures ReplaceFirst(ps, name, value)[i] == Pair(name, value)
    decreases i
  {
    if i > 0 {
      assert ps[..i] == [ps[0]] + ps[1..][..i - 1];
      GetAllAppend([ps[0]], ps[1..][..i - 1], name);
      assert [ps[0]][1..] == [];
      ReplaceFirstAt(ps[1..], name, value, i - 1);
    }
  }

  /** The value `updateQueryParams` is given: a list for the repeated key, else a string. */
  datatype Value = Text(text: string) | Items(items: seq<string>)

  function Tagged(name: string, items: seq<string>): Store
  {
    seq(|items|, k requires 0 <= k < |items| => Pair(name, items[k]))
  }

  /** The store `updateQueryParams(key, value, isArray)` leaves behind. */
  function Written(ps: Store, key: string, v: Value): Store
  {
    match v
    case Items(items) => Delete(ps, key) + Tagged(key, items)
    case Text(s) => if s != "" then Set(ps, key, s) else Delete(ps, key)
  }

  lemma {:induction false} TaggedSpec(name: string, items: seq<string>, other: string)
    ensures GetAll(Tagged(name, items), name) == items
    ensures other != name ==> GetAll(Tagged(name, items), other) == []
    ensures Delete(Tagged(name, items), name) == []
    decreases |items|
  {
    if items != [] {
      var t := Tagged(name, items);
      assert t == [t[0]] + Tagged(name, items[1..]);
      TaggedSpec(name, items[1..], other);
      GetAllAppend([t[0]], Tagged(name, items[1..]), name);
      GetAllAppend([t[0]], Tagged(name, items[1..]), other);
      assert [t[0]][1..] == [];
    }
  }

  /**
   * `updateQueryParams` leaves the pairs with other names as they were, in
   * order; for a list, `getAll(key)` afterwards is that list; for a non-empty
   * string, exactly one pair is called `key` and `get(key)` gives the string;
   * for an empty string no pair is called `key`.
   */
  lemma WrittenSpec(ps: Store, key: string, v: Value)
    ensures Delete(Written(ps, key, v), key) == Delete(ps, key)
    ensures v.Items? ==> GetAll(Written(ps, key, v), key) == v.items
    ensures v.Text? && v.text != "" ==>
              GetAll(Written(ps, key, v), key) == [v.text] && Get(Written(ps, key, v), key) == Some(v.text)
    ensures v.Text? && v.text == "" ==> GetAll(Written(ps, key, v), key) == []
  {
    match v
    case Items(items) =>
      DeleteSpec(ps, key, key);
      TaggedSpec(key, items, key);
      GetAllAppend(Delete(ps, key), Tagged(key, items), key);
      KeepAppend(Delete(ps, key), Tagged(key, items), NamedOther(key));
      DeleteTwice(ps, key);
    case Text(s) =>
      if s != "" {
        SetSpec(ps, key, s);
      } else {
        DeleteSpec(ps, key, key);
        DeleteTwice(ps, key);
      }
  }

  /** Names other than `key` read the same before and after `updateQueryParams`. */
  lemma WrittenOthers(ps: Store, key: string, v: Value, other: string)
    requires other != key
    ensures GetAll(Written(ps, key, v), other) == GetAll(ps, other)
    ensures Get(Written(ps, key, v), other) == Get(ps, other)
  {
    WrittenSpec(ps, key, v);
    DeleteSpec(Written(ps, key, v), key, other);
    DeleteSpec(ps, key, other);
    var a, b := GetAll(Written(ps, key, v), other), GetAll(ps, other);
    var ga, gb := Get(Written(ps, key, v), other), Get(ps, other);
    assert ga == gb by {
      if ga.Some? || gb.Some? {
        assert ga.Some? && gb.Some?;
      }
    }
  }

  /**
   * `updateQueryParams(key, value, isArray)` on a copy of the current store:
   * a list replaces every pair called `key` by one pair per item, a non-empty
   * string is `set`, an empty one `delete`s the key.
   */
  method UpdateQueryParams(current: Store, key: string, v: Value) returns (params: Store)
    ensures params == Written(current, key, v)
  {
    params := current;
    match v {
      case Items(items) =>
        params := Delete(params, key);
        var i := 0;
        while i < |items|
          invariant 0 <= i <= |items|
          invariant params == Delete(current, key) + Tagged(key, items[..i])
        {
          assert Tagged(key, items[..i + 1]) == Tagged(key, items[..i]) + [Pair(key, items[i])];
          params := Append(params, key, items[i]);
          i := i + 1;
        }
        assert items[..i] == items;
      case Text(s) =>
        if s != "" {
          params := Set(params, key, s);
        } else {
          params := Delete(params, key);
        }
    }
  }

  /** The filter state a store holds, read the way the page seeds its state on load. */
  function Seed(ps: Store): Filters
  {
    Filters(GetOrEmpty(ps, SearchKey), GetOrEmpty(ps, ConsultationKey),
            GetAll(ps, SpecialtiesKey), GetOrEmpty(ps, SortKey))
  }

  /** Writing every field of the seeded state back, the way the handlers write them. */
  function WriteBack(ps: Store): Store
  {
    var f := Seed(ps);
    var p1 := Written(ps, SearchKey, Text(f.search));
    var p2 := Written(p1, ConsultationKey, Text(f.consultation));
    var p3 := Written(p2, SpecialtiesKey, Items(f.specialties));
    Written(p3, SortKey, Text(f.sort))
  }

  /** Reading a written key gives back the state the page wrote. */
  lemma ReadBack(ps: Store, key: string, v: Value)
    ensures v.Text? ==> GetOrEmpty(Written(ps, key, v), key) == v.text
    ensures v.Items? ==> GetAll(Written(ps, key, v), key) == v.items
  {
    WrittenSpec(ps, key, v);
  }

  /**
   * Seeding the state from a store and writing it back gives a store that
   * seeds the same state and reads the same under every other name.
   */
  lemma SeedRoundTrip(ps: Store, other: string)
    requires other !in {SearchKey, ConsultationKey, SpecialtiesKey, SortKey}
    ensures Seed(WriteBack(ps)) == Seed(ps)
    ensures GetAll(WriteBack(ps), other) == GetAll(ps, other)
  {
    var f := Seed(ps);
    var p1 := Written(ps, SearchKey, Text(f.search));
    var p2 := Written(p1, ConsultationKey, Text(f.consultation));
    var p3 := Written(p2, SpecialtiesKey, Items(f.specialties));
    var p4 := Written(p3, SortKey, Text(f.sort));
    ReadBack(ps, SearchKey, Text(f.search));
    ReadBack(p1, ConsultationKey, Text(f.consultation));
    ReadBack(p2, SpecialtiesKey, Items(f.specialties));
    ReadBack(p3, SortKey, Text(f.sort));
    WrittenOthers(p1, ConsultationKey, Text(f.consultation), SearchKey);
    WrittenOthers(p2, SpecialtiesKey, Items(f.specialties), SearchKey);
    WrittenOthers(p3, SortKey, Text(f.sort), SearchKey);
    WrittenOthers(p2, SpecialtiesKey, Items(f.specialties), ConsultationKey);
    WrittenOthers(p3, SortKey, Text(f.sort), ConsultationKey);
    WrittenOthers(p3, SortKey, Text(f.sort), SpecialtiesKey);
    WrittenOthers(ps, SearchKey, Text(f.search), other);
    WrittenOthers(p1, ConsultationKey, Text(f.consultation), other);
    WrittenOthers(p2, SpecialtiesKey, Items(f.specialties), other);
    WrittenOthers(p3, SortKey, Text(f.sort), other);
    assert p4 == WriteBack(ps);
  }
}
