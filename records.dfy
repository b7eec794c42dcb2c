/**
 * Sequences of records keyed by a string id, and the three ways the service
 * rewrites them: append a record with a freshly minted id, replace every
 * record carrying an id (`map`), and drop every record carrying an id
 * (`filter`). Stored order matters to the service, so all three keep it.
 */
module Records {

  /** Some record of `s` carries the id `id`, so a lookup by id finds one. */
  predicate HasKey<T>(s: seq<T>, key: T -> string, id: string) {
    exists i :: 0 <= i < |s| && key(s[i]) == id
  }

  /** No two records of `s` share an id. */
  predicate UniqueKeys<T>(s: seq<T>, key: T -> string) {
    forall i, j :: 0 <= i < j < |s| ==> key(s[i]) != key(s[j])
  }

  /** Every record of `s` has a minted (non-empty) id. */
  predicate KeysNonEmpty<T>(s: seq<T>, key: T -> string) {
    forall i :: 0 <= i < |s| ==> key(s[i]) != ""
  }

  /**
   * Replace by id, as a map over the list: every record with `x`'s id becomes
   * `x`, in place; the ids, the length and all other records stay as they were.
   */
  function Replace<T>(s: seq<T>, key: T -> string, x: T): (r: seq<T>)
    ensures |r| == |s|
    ensures forall i :: 0 <= i < |s| ==> key(r[i]) == key(s[i])
    ensures forall i :: 0 <= i < |s| && key(s[i]) == key(x) ==> r[i] == x
    ensures forall i :: 0 <= i < |s| && key(s[i]) != key(x) ==> r[i] == s[i]
    ensures !HasKey(s, key, key(x)) ==> r == s
  {
    if s == [] then []
    else [if key(s[0]) == key(x) then x else s[0]] + Replace(s[1..], key, x)
  }

  /**
   * Remove by id, as a filter over the list: exactly the records with another id remain,
   * in their stored order.
   */
  function RemoveKey<T>(s: seq<T>, key: T -> string, id: string): (r: seq<T>)
    ensures forall i :: 0 <= i < |r| ==> r[i] in s && key(r[i]) != id
    ensures forall i :: 0 <= i < |s| && key(s[i]) != id ==> s[i] in r
    ensures !HasKey(r, key, id)
    ensures !HasKey(s, key, id) ==> r == s
    ensures |r| <= |s|
  {
    if s == [] then []
    else if key(s[0]) == id then RemoveKey(s[1..], key, id)
    else [s[0]] + RemoveKey(s[1..], key, id)
  }

  /**
   * Create-or-replace: a record with an empty id is appended as `minted`
   * (the record under its new id); any other record replaces those with its id.
   */
  function Upsert<T>(s: seq<T>, key: T -> string, x: T, minted: T): (r: seq<T>)
    ensures key(x) == "" ==> |r| == |s| + 1 && r[..|s|] == s && r[|s|] == minted
    ensures key(x) != "" ==> |r| == |s| && forall i :: 0 <= i < |s| && key(s[i]) != key(x) ==> r[i] == s[i]
    ensures key(x) != "" ==> forall i :: 0 <= i < |s| && key(s[i]) == key(x) ==> r[i] == x
  {
    if key(x) == "" then s + [minted] else Replace(s, key, x)
  }

  /** Upsert keeps ids unique and minted, provided the new id is fresh. */
  lemma UpsertKeepsKeys<T>(s: seq<T>, key: T -> string, x: T, minted: T)
    requires UniqueKeys(s, key) && KeysNonEmpty(s, key)
    requires key(x) == "" ==> key(minted) != "" && !HasKey(s, key, key(minted))
    ensures UniqueKeys(Upsert(s, key, x, minted), key)
    ensures KeysNonEmpty(Upsert(s, key, x, minted), key)
  {
    var r := Upsert(s, key, x, minted);
    if key(x) == "" {
      forall i, j | 0 <= i < j < |r|
        ensures key(r[i]) != key(r[j])
      {
        if j == |s| {
          assert r[i] == s[i];
        } else {
          assert r[i] == s[i] && r[j] == s[j];
        }
      }
      forall i | 0 <= i < |r|
        ensures key(r[i]) != ""
      {
        if i < |s| { assert r[i] == s[i]; }
      }
    }
  }

  /** Removing by id keeps ids unique and minted. */
  lemma {:induction false} RemoveKeyKeepsKeys<T>(s: seq<T>, key: T -> string, id: string)
    requires UniqueKeys(s, key) && KeysNonEmpty(s, key)
    ensures UniqueKeys(RemoveKey(s, key, id), key)
    ensures KeysNonEmpty(RemoveKey(s, key, id), key)
  {
    if s != [] {
      var rest := s[1..];
      var tail := RemoveKey(rest, key, id);
      assert UniqueKeys(rest, key) && KeysNonEmpty(rest, key);
      RemoveKeyKeepsKeys(rest, key, id);
      if key(s[0]) != id {
        forall j | 0 <= j < |tail|
          ensures key(s[0]) != key(tail[j])
        {
          assert tail[j] in rest;
          var m :| 0 <= m < |rest| && rest[m] == tail[j];
          assert s[m + 1] == tail[j];
        }
        UniqueAfterCons(s[0], tail, key);
      }
    }
  }

  /**
   * Removal by id works record by record: it distributes over concatenation,
   * and a single record is kept exactly when its id differs. Together these
   * make the result the stored-order subsequence of the kept records, each
   * kept as often as it is stored.
   */
  lemma {:induction false} RemoveKeyAppend<T>(s: seq<T>, t: seq<T>, key: T -> string, id: string)
    ensures RemoveKey(s + t, key, id) == RemoveKey(s, key, id) + RemoveKey(t, key, id)
  {
    if s == [] {
      assert s + t == t;
    } else {
      assert (s + t)[1..] == s[1..] + t;
      RemoveKeyAppend(s[1..], t, key, id);
    }
  }

  lemma RemoveKeyOne<T>(x: T, key: T -> string, id: string)
    ensures RemoveKey([x], key, id) == (if key(x) == id then [] else [x])
  {
  }

  /** Prepending a record whose id is new keeps ids unique and minted. */
  lemma UniqueAfterCons<T>(x: T, t: seq<T>, key: T -> string)
    requires UniqueKeys(t, key) && KeysNonEmpty(t, key) && key(x) != ""
    requires forall j :: 0 <= j < |t| ==> key(x) != key(t[j])
    ensures UniqueKeys([x] + t, key) && KeysNonEmpty([x] + t, key)
  {
    var r := [x] + t;
    forall i, j | 0 <= i < j < |r|
      ensures key(r[i]) != key(r[j])
    {
      assert r[j] == t[j - 1];
      if i > 0 { assert r[i] == t[i - 1]; }
    }
    forall i | 0 <= i < |r|
      ensures key(r[i]) != ""
    {
      if i > 0 { assert r[i] == t[i - 1]; }
    }
  }
}
