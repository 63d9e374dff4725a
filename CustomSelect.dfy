/**
 * The drop-down select: an open flag, a focused option index moved by the
 * arrow keys with wrap-around, and selection by Enter or Space.
 *
 * The focused index is a JavaScript number: `NaN` arises from a remainder
 * by zero options, and remainders truncate toward zero.
 */
module CustomSelect {
  import opened Common

  /** The `focusedIndex` state: an integer, or `NaN`. */
  datatype Focus = At(index: int) | NaN

  /** JavaScript's `a % n` for a positive `n`: the remainder takes the sign of `a`. */
  function JsRem(a: int, n: int): (r: int)
    requires n > 0
    ensures -n < r < n
    ensures a >= 0 ==> r >= 0
    ensures a < 0 ==> r <= 0
  {
    if a >= 0 then a % n else -((-a) % n)
  }

  /** The quotient JavaScript's remainder goes with: `a / n` truncated toward zero. */
  function JsQuot(a: int, n: int): int
    requires n > 0
  {
    if a >= 0 then a / n else -((-a) / n)
  }

  /** The remainder is what is left of `a` after the truncated quotient's multiple of `n`. */
  lemma JsRemCongruent(a: int, n: int)
    requires n > 0
    ensures a == JsQuot(a, n) * n + JsRem(a, n)
  {
    if a >= 0 {
      assert a == (a / n) * n + a % n;
    } else {
      var q, r := (-a) / n, (-a) % n;
      assert -a == q * n + r;
      assert a == (-q) * n + (-r);
    }
  }

  /**
   * Range, sign and congruence pin the remainder down: any `r` with a
   * quotient `q` such that `a == q * n + r`, below `n` in size and with the
   * sign of `a`, is `JsRem(a, n)`.
   */
  lemma JsRemUnique(a: int, n: int, q: int, r: int)
    requires n > 0 && a == q * n + r && -n < r < n
    requires a >= 0 ==> r >= 0
    requires a < 0 ==> r <= 0
    ensures r == JsRem(a, n)
  {
    JsRemCongruent(a, n);
    var q', r' := JsQuot(a, n), JsRem(a, n);
    assert (q - q') * n == r' - r;
    MultipleBound(q - q', n);
  }

  /** A nonzero multiple of a positive `n` is at least `n` in size. */
  lemma MultipleBound(d: int, n: int)
    requires n > 0
    ensures d >= 1 ==> d * n >= n
    ensures d <= -1 ==> d * n <= -n
  {
    if d >= 1 {
      assert d * n == (d - 1) * n + n;
      assert (d - 1) * n >= 0;
    } else if d <= -1 {
      assert d * n == (d + 1) * n - n;
      assert (-(d + 1)) * n >= 0;
    }
  }

  /** Below twice the modulus, the remainder subtracts the modulus at most once. */
  lemma ModSmall(a: int, n: int)
    requires n > 0
    ensures 0 <= a < 2 * n ==> JsRem(a, n) == if a < n then a else a - n
  {
    if a < 0 || a >= 2 * n {
      return;
    }
    var q, r := a / n, a % n;
    assert a == n * q + r && 0 <= r < n;
    if q <= 0 {
      assert n * q == -(n * (-q));
      assert n * (-q) >= 0;
    }
    assert a >= n ==> q == 1;
    assert a < n ==> q == 0;
  }

  /** ArrowDown: `(prev + 1) % options.length`. */
  function NextFocus(f: Focus, n: nat): (r: Focus)
    ensures n == 0 || f.NaN? ==> r == NaN
    ensures n > 0 && f.At? && -1 <= f.index < n ==>
      r == At(if f.index + 1 == n then 0 else f.index + 1)
  {
    if n == 0 || f.NaN? then NaN
    else
      ModSmall(f.index + 1, n);
      At(JsRem(f.index + 1, n))
  }

  /** ArrowUp: `(prev - 1 + options.length) % options.length`. */
  function PrevFocus(f: Focus, n: nat): (r: Focus)
    ensures n == 0 || f.NaN? ==> r == NaN
    ensures n > 0 && f.At? && 0 <= f.index < n ==>
      r == At(if f.index == 0 then n - 1 else f.index - 1)
    ensures n > 0 && f == At(-1) ==> r == At(if n >= 2 then n - 2 else 0)
  {
    if n == 0 || f.NaN? then NaN
    else
      ModSmall(f.index - 1 + n, n);
      At(JsRem(f.index - 1 + n, n))
  }

  /** From no focus or an option in range, either arrow key lands on an option. */
  lemma ArrowKeysStayInRange(f: Focus, n: nat)
    requires n > 0 && f.At? && -1 <= f.index < n
    ensures NextFocus(f, n).At? && 0 <= NextFocus(f, n).index < n
    ensures PrevFocus(f, n).At? && 0 <= PrevFocus(f, n).index < n
  {
  }

  /** ArrowUp from no focus skips the last option when there are at least two. */
  lemma ArrowUpFromNothingSkipsLast(n: nat)
    requires n >= 2
    ensures PrevFocus(At(-1), n) == At(n - 2)
  {
  }

  /**
   * A focus left past the end by new options is brought back into range by
   * either arrow key.
   */
  lemma StaleFocusRecovers(i: int, n: nat)
    requires n > 0 && i >= n
    ensures NextFocus(At(i), n).At? && 0 <= NextFocus(At(i), n).index < n
    ensures PrevFocus(At(i), n).At? && 0 <= PrevFocus(At(i), n).index < n
  {
  }

  /** Going down then up returns to an option in range. */
  lemma DownThenUp(i: int, n: nat)
    requires n > 0 && 0 <= i < n
    ensures PrevFocus(NextFocus(At(i), n), n) == At(i)
  {
  }

  /** `options.findIndex((option) => option === selected)`: the first match, or -1. */
  function FindIndex<T(==)>(options: seq<T>, selected: Option<T>): (r: int)
    ensures -1 <= r < |options|
    ensures r == -1 <==> selected.None? || selected.value !in options
    ensures r >= 0 ==> selected.Some? && options[r] == selected.value
    ensures r >= 0 ==> forall j :: 0 <= j < r ==> options[j] != selected.value
    decreases |options|
  {
    if selected.None? || options == [] then -1
    else if options[0] == selected.value then 0
    else
      var k := FindIndex(options[1..], selected);
      if k == -1 then -1 else k + 1
  }

  /** `findIndex(...) || 0`: -1 is truthy and 0 is 0, so the index is kept as it is. */
  function OrZero(i: int): (r: int)
    ensures r == i
  {
    if i == 0 then 0 else i
  }

  /**
   * The select's state. `options` and the `selected`/`isOpen` values come from
   * the parent; here the parent's state is kept in the same object.
   */
  class Select<T(==)> {
    var options: seq<T>
    var selected: Option<T>
    var isOpen: bool
    var focusedIndex: Focus

    constructor (options: seq<T>, selected: Option<T>, isOpen: bool)
      ensures this.options == options && this.selected == selected && this.isOpen == isOpen
      ensures focusedIndex == At(-1)
    {
      this.options, this.selected, this.isOpen := options, selected, isOpen;
      focusedIndex := At(-1);
    }

    /**
     * New `options` from the parent: the focused index is state and is kept,
     * even where it no longer names an option.
     */
    method SetOptions(newOptions: seq<T>)
      modifies this
      ensures options == newOptions
      ensures selected == old(selected) && isOpen == old(isOpen) && focusedIndex == old(focusedIndex)
    {
      options := newOptions;
    }

    /**
     * `toggleDropdown(expand)`: sets the open flag to `expand`, or flips it
     * when none is given. Opening focuses the selected option (-1 when it is
     * not among the options); closing removes the focus.
     */
    method ToggleDropdown(expand: Option<bool>)
      modifies this
      ensures isOpen == (if expand.Some? then expand.value else !old(isOpen))
      ensures isOpen ==> focusedIndex == At(FindIndex(options, selected))
      ensures !isOpen ==> focusedIndex == At(-1)
      ensures selected == old(selected) && options == old(options)
    {
      var newState := if expand.Some? then expand.value else !isOpen;
      isOpen := newState;
      if newState {
        focusedIndex := At(OrZero(FindIndex(options, selected)));
      } else {
        focusedIndex := At(-1);
      }
    }

    /**
     * `handleOptionSelect(index)`: an index naming an option selects it and
     * closes the drop-down; any other index (-1, past the end, `NaN`) changes
     * nothing. Returns the option handed to the parent, if any.
     */
    method HandleOptionSelect(index: Focus) returns (chosen: Option<T>)
      modifies this
      ensures index.At? && 0 <= index.index < |options| ==>
        chosen == Some(options[index.index]) && selected == chosen && !isOpen
      ensures !(index.At? && 0 <= index.index < |options|) ==>
        chosen == None && selected == old(selected) && isOpen == old(isOpen)
      ensures focusedIndex == old(focusedIndex) && options == old(options)
    {
      chosen := None;
      if index.At? && 0 <= index.index < |options| {
        var selectedOption := options[index.index];
        selected := Some(selectedOption);
        isOpen := false;
        chosen := Some(selectedOption);
      }
    }

    /**
     * `handleKeyDown`: ArrowDown opens and moves the focus down, ArrowUp moves
     * it up, Enter or Space selects the focused option, Escape closes; any
     * other key changes nothing.
     */
    method HandleKeyDown(key: string) returns (chosen: Option<T>)
      modifies this
      ensures key == "ArrowDown" ==>
        isOpen && focusedIndex == NextFocus(old(focusedIndex), |options|) && selected == old(selected)
      ensures key == "ArrowUp" ==>
        isOpen == old(isOpen) && focusedIndex == PrevFocus(old(focusedIndex), |options|) && selected == old(selected)
      ensures key == "Enter" || key == " " ==> focusedIndex == old(focusedIndex)
      ensures (key == "Enter" || key == " ") && focusedIndex.At? && 0 <= focusedIndex.index < |options| ==>
        chosen == Some(options[focusedIndex.index]) && selected == chosen && !isOpen
      ensures (key == "Enter" || key == " ") && !(focusedIndex.At? && 0 <= focusedIndex.index < |options|) ==>
        chosen == None && selected == old(selected) && isOpen == old(isOpen)
      ensures key == "Escape" ==> !isOpen && selected == old(selected) && focusedIndex == old(focusedIndex)
      ensures key !in {"ArrowDown", "ArrowUp", "Enter", " ", "Escape"} ==>
        isOpen == old(isOpen) && selected == old(selected) && focusedIndex == old(focusedIndex)
      ensures key != "Enter" && key != " " ==> chosen == None
      ensures options == old(options)
    {
      chosen := None;
      if key == "ArrowDown" {
        isOpen := true;
        focusedIndex := NextFocus(focusedIndex, |options|);
      } else if key == "ArrowUp" {
        focusedIndex := PrevFocus(focusedIndex, |options|);
      } else if key == "Enter" || key == " " {
        chosen := HandleOptionSelect(focusedIndex);
      } else if key == "Escape" {
        isOpen := false;
      }
    }
  }
}
