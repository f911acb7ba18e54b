/** Small shared vocabulary: an optional value, used wherever the bot reads
    `dict.get(...)` or a lookup that may find nothing, and removal by
    position. */
module Base {

  datatype Option<T> = None | Some(value: T)

  /** The sequence without its element at position `k`, as `list.remove`
      and `dict.pop` leave the entries that follow it. */
  function RemoveAt<T>(s: seq<T>, k: nat): (r: seq<T>)
    requires k < |s|
    ensures |r| == |s| - 1
    ensures forall i :: 0 <= i < k ==> r[i] == s[i]
    ensures forall i :: k <= i < |r| ==> r[i] == s[i + 1]
  {
    s[..k] + s[k + 1..]
  }

}
