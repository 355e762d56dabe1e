/**
 The ping-pong replay filter of shadowsocksr-native/src/ppbloom.c. A Bloom filter is what was put into it plus whatever
 it reports by mistake; it never forgets.
 */
module PpBloom {

  type Item = seq<int>

  /** One Bloom filter. */
  datatype Bloom = Bloom(members: set<Item>, mistakes: (set<Item>, Item) -> bool) {
    /** `bloom_check` */
    predicate Check(x: Item) { x in members || mistakes(members, x) }

    /** `bloom_add` */
    function Add(x: Item): Bloom { this.(members := members + {x}) }

    /** `bloom_reset` */
    function Reset(): Bloom { this.(members := {}) }
  }

  /** One recorded item; `checked` if it was recorded right after the filter had said it is new. */
  datatype Record = Record(item: Item, checked: bool)

  /** Two records of one item, the later one checked, have at least `entries` other records between them. */
  ghost predicate Spaced(log: seq<Record>, entries: nat) {
    forall i, j :: 0 <= i < j < |log| && log[j].checked && log[i].item == log[j].item ==> j - i - 1 >= entries
  }

  class PingPong {
    const entries: nat
    var ppbloom: (Bloom, Bloom)
    var bloomCount: (nat, nat)
    var pong: bool
    /** Everything ever added. */
    ghost var log: seq<Record>
    /** Insertions into each half since it was last reset. */
    ghost var load: (nat, nat)

    ghost predicate Valid()
      reads this
    {
      entries >= 1 && Spaced(log, entries) && Window() &&
      load.0 <= entries && load.1 <= entries && (if pong then load.1 else load.0) == Count() < entries
    }

    ghost function Count(): nat
      reads this
    {
      if pong then bloomCount.1 else bloomCount.0
    }

    /** The current half holds the newest records, the other half the `entries` records before them. */
    ghost predicate Window()
      reads this
    {
      var n := Count();
      var (current, other) := if pong then (ppbloom.1, ppbloom.0) else (ppbloom.0, ppbloom.1);
      (if pong then bloomCount.0 else bloomCount.1) == 0 && n <= |log| &&
      (forall i :: |log| - n <= i < |log| ==> log[i].item in current.members) &&
      (forall i :: 0 <= i && |log| - n - entries <= i < |log| - n ==> log[i].item in other.members)
    }

    /** `ppbloom_init` with room for `n` items; `n / 2` go into each half. */
    constructor (n: nat, mistakes: (set<Item>, Item) -> bool)
      requires n >= 2
      ensures Valid() && log == [] && entries == n / 2
    {
      entries := n / 2;
      ppbloom := (Bloom({}, mistakes), Bloom({}, mistakes));
      bloomCount, pong, log, load := (0, 0), false, [], (0, 0);
    }

    /** `ppbloom_check` */
    predicate Check(x: Item)
      reads this
    {
      ppbloom.0.Check(x) || ppbloom.1.Check(x)
    }

    /** `ppbloom_add` */
    method Add(x: Item, ghost checked: bool)
      requires Valid() && (checked ==> !Check(x))
      modifies this
      ensures Valid() && log == old(log) + [Record(x, checked)]
    {
      SpacedMore(x, checked);
      hide Spaced;
      log := log + [Record(x, checked)];
      if pong {
        ppbloom := (ppbloom.0, ppbloom.1.Add(x));
        bloomCount, load := (bloomCount.0, bloomCount.1 + 1), (load.0, load.1 + 1);
        if bloomCount.1 >= entries {
          bloomCount, pong := (bloomCount.0, 0), false;
          ppbloom, load := (ppbloom.0.Reset(), ppbloom.1), (0, load.1);
        }
      } else {
        ppbloom := (ppbloom.0.Add(x), ppbloom.1);
        bloomCount, load := (bloomCount.0 + 1, bloomCount.1), (load.0 + 1, load.1);
        if bloomCount.0 >= entries {
          bloomCount, pong := (0, bloomCount.1), true;
          ppbloom, load := (ppbloom.0, ppbloom.1.Reset()), (load.0, 0);
        }
      }
    }

    /** Each of the last `entries` records is reported. */
    lemma LastAreReported(i: nat)
      requires Valid() && |log| - entries <= i < |log|
      ensures Check(log[i].item)
    {
      assert log[i].item in ppbloom.0.members || log[i].item in ppbloom.1.members;
    }

    lemma SpacedMore(x: Item, checked: bool)
      requires Valid() && (checked ==> !Check(x))
      ensures Spaced(log + [Record(x, checked)], entries)
    {
      var after := log + [Record(x, checked)];
      forall i, j | 0 <= i < j < |after| && after[j].checked && after[i].item == after[j].item
        ensures j - i - 1 >= entries
      {
        if j == |log| && i >= |log| - entries {
          LastAreReported(i);
        }
      }
    }
  }
}
