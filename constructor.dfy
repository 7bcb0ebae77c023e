/** Buffer-fill helpers: allocate `len` slots and write each one in index order. A closure
    `FnMut() -> T` is modelled by `gen`, where `gen(k)` is the value its `k`-th call returns
    (counting from zero); `T::default` is passed in as `dflt`. */
module Constructor {

  /** `new_boxed_slice_with`: calls the closure once per slot, in index order, so slot `k`
      holds the `k`-th result. */
  method NewBoxedSliceWith<T(0)>(len: nat, gen: nat -> T) returns (boxed: array<T>)
    ensures fresh(boxed) && boxed.Length == len
    ensures forall k :: 0 <= k < len ==> boxed[k] == gen(k)
  {
    boxed := new T[len];
    var k := 0;
    while k < len
      invariant 0 <= k <= len
      invariant forall m :: 0 <= m < k ==> boxed[m] == gen(m)
    {
      boxed[k] := gen(k);
      k := k + 1;
    }
  }

  /** `new_boxed_slice_with_value`: `len` clones of `value`. */
  method NewBoxedSliceWithValue<T(0)>(len: nat, value: T) returns (boxed: array<T>)
    ensures fresh(boxed) && boxed[..] == seq(len, _ => value)
  {
    boxed := NewBoxedSliceWith(len, _ => value);
  }

  /** `new_boxed_slice`: `len` default values. */
  method NewBoxedSlice<T(0)>(len: nat, dflt: T) returns (boxed: array<T>)
    ensures fresh(boxed) && boxed[..] == seq(len, _ => dflt)
  {
    boxed := NewBoxedSliceWith(len, _ => dflt);
  }
}
