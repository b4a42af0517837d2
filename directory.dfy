/**
 * The doctor records the page fetches and the predicates its filter stages
 * and its autocomplete apply to them.
 */
module Directory {

  /** One record of the fetched JSON array (`consultation_type` in the payload). */
  datatype Doctor = Doctor(
    name: string,
    specialties: seq<string>,
    consultationType: string,
    experience: int,
    fees: int)

  /** The filter and sort selections the page holds alongside the fetched list. */
  datatype Filters = Filters(
    search: string,
    consultation: string,
    specialties: seq<string>,
    sort: string)

  /** `toLowerCase` restricted to ASCII letters. */
  function LowerChar(c: char): (r: char)
    ensures !('A' <= r <= 'Z')
    ensures 'A' <= c <= 'Z' || r == c
    ensures 'A' <= c <= 'Z' ==> 'a' <= r <= 'z'
  {
    if 'A' <= c <= 'Z' then (c as int + 32) as char else c
  }

  function Lower(s: string): (r: string)
    ensures |r| == |s|
  {
    seq(|s|, i requires 0 <= i < |s| => LowerChar(s[i]))
  }

  /** `hay.includes(needle)`: `needle` occurs in `hay` at some offset. */
  predicate Includes(hay: string, needle: string)
    decreases |hay|
  {
    needle <= hay || (|hay| > 0 && Includes(hay[1..], needle))
  }

  /** `Includes` holds exactly when `needle` is a prefix of some suffix of `hay`. */
  lemma {:induction false} IncludesAt(hay: string, needle: string)
    ensures Includes(hay, needle) <==> exists i :: 0 <= i <= |hay| && needle <= hay[i..]
    decreases |hay|
  {
    if needle <= hay {
      assert hay[0..] == hay;
    } else if |hay| > 0 {
      IncludesAt(hay[1..], needle);
      if exists i :: 0 <= i <= |hay| && needle <= hay[i..] {
        var i :| 0 <= i <= |hay| && needle <= hay[i..];
        assert i > 0 by { assert hay[0..] == hay; }
        assert hay[1..][i - 1..] == hay[i..];
      }
      if exists i :: 0 <= i <= |hay[1..]| && needle <= hay[1..][i..] {
        var i :| 0 <= i <= |hay[1..]| && needle <= hay[1..][i..];
        assert hay[1..][i..] == hay[i + 1..];
      }
    } else {
      assert forall i :: 0 <= i <= |hay| ==> hay[i..] == hay;
    }
  }

  /** The name stage: the search text occurs in the name, ignoring case. */
  predicate NameMatches(text: string, d: Doctor)
  {
    Includes(Lower(d.name), Lower(text))
  }

  /** Some selected specialty is one of the record's specialties. */
  predicate SharesSpecialty(selected: seq<string>, d: Doctor)
  {
    exists s :: s in selected && s in d.specialties
  }

  /** Each stage of the filter acts only when its selection is non-empty. */
  predicate NameStage(f: Filters, d: Doctor)
  {
    f.search == "" || NameMatches(f.search, d)
  }

  predicate TypeStage(f: Filters, d: Doctor)
  {
    f.consultation == "" || d.consultationType == f.consultation
  }

  predicate SpecialtyStage(f: Filters, d: Doctor)
  {
    |f.specialties| == 0 || SharesSpecialty(f.specialties, d)
  }

  /** A record is displayed when it passes every active stage. */
  predicate Admits(f: Filters, d: Doctor)
  {
    NameStage(f, d) && TypeStage(f, d) && SpecialtyStage(f, d)
  }
}
