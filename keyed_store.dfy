/**
 * The key-value store behind the chat route, held in memory: every key holds
 * either a set of strings or a list of strings, and the commands are the
 * ones the route issues (SADD, SREM, SMEMBERS, LPUSH, LTRIM, LRANGE, DEL),
 * each with its Redis meaning.
 */
module KeyedStore {
  import opened Wrappers

  /** The whole content of the store at one moment. */
  datatype Db = Db(sets: map<string, set<string>>, lists: map<string, seq<string>>) {

    /**
     * Redis's own invariants: a key holds one kind of value, and a set or a
     * list that becomes empty is removed together with its key.
     */
    ghost predicate Valid() {
      && sets.Keys !! lists.Keys
      && (forall k :: k in sets ==> sets[k] != {})
      && (forall k :: k in lists ==> lists[k] != [])
    }

    /** SMEMBERS: a missing key reads as the empty set. */
    function Members(key: string): set<string> {
      if key in sets then sets[key] else {}
    }

    /** A missing key reads as the empty list. */
    function Items(key: string): seq<string> {
      if key in lists then lists[key] else []
    }
  }

  /** The set under `key` after SREM of `member`; a set left empty loses its key. */
  function SetWithout(sets: map<string, set<string>>, key: string, member: string): (r: map<string, set<string>>)
    ensures r.Keys <= sets.Keys
    ensures forall k :: k in sets && k != key ==> k in r && r[k] == sets[k]
    ensures key in r ==> key in sets && r[key] == sets[key] - {member}
    ensures key !in r ==> (key in sets ==> sets[key] <= {member})
    ensures key in sets && sets[key] <= {member} ==> key !in r
  {
    var left := (if key in sets then sets[key] else {}) - {member};
    if left == {} then sets - {key} else sets[key := left]
  }

  /** The normalised first index of an inclusive Redis range over a list of length `n`. */
  function RangeStart(n: nat, start: int): nat {
    if start >= 0 then start else if n + start >= 0 then n + start else 0
  }

  /**
   * The elements with indices `start` to `stop` inclusive, as LRANGE reads
   * them and LTRIM keeps them: a negative index counts from the end, `stop`
   * past the end means the end, and an empty range gives the empty list.
   */
  function Range<T>(s: seq<T>, start: int, stop: int): (r: seq<T>)
    ensures |r| <= |s|
    ensures forall i :: 0 <= i < |r| ==> RangeStart(|s|, start) + i < |s| && r[i] == s[RangeStart(|s|, start) + i]
  {
    var lo := RangeStart(|s|, start);
    var hi := if stop >= 0 then stop else |s| + stop;
    if lo > hi || lo >= |s| then [] else s[lo..Min(hi, |s| - 1) + 1]
  }

  /** Reading indices `0` to `count - 1` gives the first `count` elements, or all of a shorter list. */
  lemma RangeFromZero<T>(s: seq<T>, count: nat)
    requires count >= 1
    ensures Range(s, 0, count - 1) == s[..Min(count, |s|)]
  {
  }

  /** The store itself, changed in place by each command. */
  class Store {
    var sets: map<string, set<string>>
    var lists: map<string, seq<string>>

    function Snapshot(): Db
      reads this
    {
      Db(sets, lists)
    }

    ghost predicate Valid()
      reads this
    {
      Snapshot().Valid()
    }

    /** A new, empty store. */
    constructor ()
      ensures Valid() && sets == map[] && lists == map[]
    {
      sets := map[];
      lists := map[];
    }

    /** SADD key member. */
    method SAdd(key: string, member: string)
      requires Valid() && key !in lists
      modifies this
      ensures Valid()
      ensures sets == old(sets)[key := old(Snapshot()).Members(key) + {member}]
      ensures lists == old(lists)
    {
      sets := sets[key := Snapshot().Members(key) + {member}];
    }

    /** SREM key member. */
    method SRem(key: string, member: string)
      requires Valid() && key !in lists
      modifies this
      ensures Valid()
      ensures sets == SetWithout(old(sets), key, member)
      ensures lists == old(lists)
    {
      var left := Snapshot().Members(key) - {member};
      if left == {} {
        sets := sets - {key};
      } else {
        sets := sets[key := left];
      }
    }

    /** SMEMBERS key. */
    method SMembers(key: string) returns (members: set<string>)
      requires key !in lists
      ensures members == Snapshot().Members(key)
      ensures key in sets ==> members == sets[key]
      ensures key !in sets ==> members == {}
    {
      members := if key in sets then sets[key] else {};
    }

    /** LPUSH key value: `value` becomes the first element. */
    method LPush(key: string, value: string)
      requires Valid() && key !in sets
      modifies this
      ensures Valid()
      ensures lists == old(lists)[key := [value] + old(Snapshot()).Items(key)]
      ensures sets == old(sets)
    {
      lists := lists[key := [value] + Snapshot().Items(key)];
    }

    /** LTRIM key start stop: keep only that range; a list trimmed to nothing loses its key. */
    method LTrim(key: string, start: int, stop: int)
      requires Valid() && key !in sets
      modifies this
      ensures Valid()
      ensures var kept := Range(old(Snapshot()).Items(key), start, stop);
        lists == if kept == [] then old(lists) - {key} else old(lists)[key := kept]
      ensures sets == old(sets)
    {
      var kept := Range(Snapshot().Items(key), start, stop);
      if kept == [] {
        lists := lists - {key};
      } else {
        lists := lists[key := kept];
      }
    }

    /** LRANGE key start stop. */
    method LRange(key: string, start: int, stop: int) returns (items: seq<string>)
      requires key !in sets
      ensures items == Range(Snapshot().Items(key), start, stop)
    {
      var all := if key in lists then lists[key] else [];
      items := Range(all, start, stop);
    }

    /** DEL key: removes the key, whatever it holds. */
    method Del(key: string)
      requires Valid()
      modifies this
      ensures Valid()
      ensures sets == old(sets) - {key} && lists == old(lists) - {key}
    {
      sets := sets - {key};
      lists := lists - {key};
    }
  }
}
