/** `batch_iterator` from the helpers module: consecutive slices of a list.
    The same slicing is used by the embedding client's sub-batches, spaCy's
    100 000-character text batches, the file batches of a directory run and
    the 500-point upload batches. */
module Batching {

  import opened Seqs

  /** `[items[i:i + size] for i in range(0, len(items), size)]`. A negative
      size gives an empty range; a size of zero makes `range` raise, which the
      precondition excludes. For a positive size the batches partition
      `items`: they concatenate back to it, none is empty, none is longer than
      `size`, all but the last are exactly `size` long, and their number is
      the ceiling of n / size: the least count whose batches of `size`
      items can hold all n. */
  function BatchIterator<T>(items: seq<T>, size: int): (bs: seq<seq<T>>)
    requires size != 0
    ensures size < 0 ==> bs == []
    ensures size > 0 ==> Flatten(bs) == items
    ensures forall k :: 0 <= k < |bs| ==> 0 < |bs[k]| <= size
    ensures forall k :: 0 <= k < |bs| - 1 ==> |bs[k]| == size
    ensures size > 0 ==> (|bs| - 1) * size < |items| <= |bs| * size
    decreases |items|
  {
    if size < 0 || |items| == 0 then
      []
    else if |items| <= size then
      [items]
    else
      var rest := BatchIterator(items[size..], size);
      assert |rest| * size == (|rest| - 1) * size + size;
      assert ([items[..size]] + rest)[1..] == rest;
      assert items == items[..size] + items[size..];
      [items[..size]] + rest
  }
}
