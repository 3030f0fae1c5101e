/**
 Where a path leads: its parts are followed one after the other, from a root that
 must not be left.  The validations of path parts in src/spl/embedded.py:890-898
 and 1374-1376 are measured against this.
 */
module PathWalk {
  import opened Common

  /** The place one part away: nothing and "." stay, ".." goes up. */
  function Go(place: seq<string>, part: string): Option<seq<string>> {
    if part == "" || part == "." then Some(place)
    else if part != ".." then Some(place + [part])
    else if place == [] then None
    else Some(place[..|place| - 1])
  }

  /** The place at the end of the path, if the way there never leaves the root. */
  function Follow(place: seq<string>, parts: seq<string>): Option<seq<string>>
    decreases |parts|
  {
    if parts == [] then Some(place)
    else
      match Go(place, parts[0])
      case None => None
      case Some(next) => Follow(next, parts[1..])
  }

  /** A path that starts at the root of the machine leads away. */
  function Leads(parts: seq<string>): Option<seq<string>> {
    if parts != [] && (parts[0] == "/" || parts[0] == "//") then None else Follow([], parts)
  }

  /** A part that goes down by itself. */
  predicate Descends(part: string) { part != "" && part != "." && part != ".." }

  lemma {:induction false} FollowIsShort(place: seq<string>, parts: seq<string>)
    ensures Follow(place, parts).Some? ==> |Follow(place, parts).value| <= |place| + |parts|
    decreases |parts|
  {
    if parts != [] {
      var next := Go(place, parts[0]);
      if next.Some? { FollowIsShort(next.value, parts[1..]); }
    }
  }

  lemma {:induction false} FollowsItself(place: seq<string>, parts: seq<string>)
    ensures Follow(place, parts) == Some(place + parts) <==> forall k | 0 <= k < |parts| :: Descends(parts[k])
    decreases |parts|
  {
    if parts == [] {
      assert place + parts == place;
    } else if Descends(parts[0]) {
      FollowsItself(place + [parts[0]], parts[1..]);
      assert place + [parts[0]] + parts[1..] == place + parts;
      assert forall k | 0 < k < |parts| :: parts[k] == parts[1..][k - 1];
    } else {
      var next := Go(place, parts[0]);
      if next.Some? { FollowIsShort(next.value, parts[1..]); }
    }
  }

  /** A path leads to exactly the place that it spells if and only if it is relative and every part goes down. */
  lemma LeadsItself(parts: seq<string>)
    ensures Leads(parts) == Some(parts) <==>
      !(parts != [] && (parts[0] == "/" || parts[0] == "//")) && forall k | 0 <= k < |parts| :: Descends(parts[k])
  {
    FollowsItself([], parts);
    assert [] + parts == parts;
  }
}
