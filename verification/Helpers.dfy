/** Small helpers on numbers and on lists of ids. */
module Helpers {
  function Max(a: int, b: int): int { if a < b then b else a }

  /** A list as it is if the id is on it, and otherwise with the id at its end. */
  function AddOnce(list: seq<string>, id: string): seq<string> {
    if id in list then list else list + [id]
  }

  /** The first position of an id, or the length of a list without it. */
  function IndexIn(list: seq<string>, id: string): (k: nat)
    ensures k <= |list| && (k < |list| <==> id in list) && (k < |list| ==> list[k] == id)
    ensures forall j :: 0 <= j < k ==> list[j] != id
  {
    if list == [] then 0 else if list[0] == id then 0 else 1 + IndexIn(list[1..], id)
  }
}
