/** The stock-control button: a counter that starts at 5, a label showing
    it, and a "Restar 1" button whose click handler lowers the counter by
    one but never below zero, recolouring the screen as stock runs low and
    disabling the button once it is sold out. */
module Stock {

  const InitialStock: int := 5
  /** Below this (and above zero) the screen shows the low-stock colours. */
  const LowStockBelow: int := 3
  const ButtonText: string := "Restar 1"
  const SoldOutText: string := "¡Sin Stock!"

  /** The colour scheme of button and label: blue-grey/green, orange, or red. */
  datatype Display = Normal | LowStock | SoldOut

  /** Everything the click handler reads or writes: the counter, the number
      shown in the "Stock: n" label, and the button's `disabled`, `text` and
      colour scheme. */
  datatype Screen = Screen(stock: int, shown: int, disabled: bool, text: string, display: Display)

  function Initial(): Screen
  {
    Screen(InitialStock, InitialStock, false, ButtonText, Normal)
  }

  /** The colours the handler picks for a stock level it has just reached. */
  function DisplayFor(stock: int): Display
  {
    if stock == 0 then SoldOut else if stock < LowStockBelow then LowStock else Normal
  }

  /** One click: only a positive stock is decremented and redrawn. */
  function Click(s: Screen): Screen
  {
    if s.stock > 0 then
      var n := s.stock - 1;
      if n == 0 then s.(stock := n, shown := n, disabled := true, text := SoldOutText, display := SoldOut)
      else if n < LowStockBelow then s.(stock := n, shown := n, display := LowStock)
      else s.(stock := n, shown := n, display := Normal)
    else s
  }

  function Clicks(s: Screen, k: nat): Screen
    decreases k
  {
    if k == 0 then s else Click(Clicks(s, k - 1))
  }

  /** What every reachable screen satisfies: the counter is never negative,
      the label shows it, the button is disabled and reads "¡Sin Stock!"
      exactly when it is zero, and the colours match the level. */
  predicate Consistent(s: Screen)
  {
    && s.stock >= 0
    && s.shown == s.stock
    && (s.disabled <==> s.stock == 0)
    && (s.text == (if s.stock == 0 then SoldOutText else ButtonText))
    && s.display == DisplayFor(s.stock)
  }

  // ---------------------------------------------------------------------
  // Properties

  /** A click on positive stock removes exactly one unit; a click at zero
      changes nothing at all. */
  lemma ClickEffect(s: Screen)
    ensures s.stock > 0 ==> Click(s).stock == s.stock - 1 && Click(s).shown == s.stock - 1
    ensures s.stock <= 0 ==> Click(s) == s
    ensures s.stock >= 0 ==> Click(s).stock >= 0
  {
  }

  /** After a decrement: 0 disables the button with the sold-out text,
      1 or 2 gives the warning colours, 3 or more the normal ones. */
  lemma ClickDisplay(s: Screen)
    requires s.stock > 0
    ensures Click(s).stock == 0 ==> Click(s).disabled && Click(s).text == SoldOutText && Click(s).display == SoldOut
    ensures 0 < Click(s).stock < LowStockBelow ==> Click(s).display == LowStock
    ensures Click(s).stock >= LowStockBelow ==> Click(s).display == Normal
  {
  }

  lemma ClickPreservesConsistent(s: Screen)
    requires Consistent(s)
    ensures Consistent(Click(s))
  {
  }

  /** Every screen reachable from the initial one by clicks is consistent. */
  lemma {:induction false} ReachableConsistent(k: nat)
    ensures Consistent(Clicks(Initial(), k))
    decreases k
  {
    if k > 0 {
      ReachableConsistent(k - 1);
      ClickPreservesConsistent(Clicks(Initial(), k - 1));
    }
  }

  /** After k clicks from the start, the stock is max(0, 5 - k). */
  lemma {:induction false} StockAfterClicks(k: nat)
    ensures Clicks(Initial(), k).stock == if k <= InitialStock then InitialStock - k else 0
    decreases k
  {
    if k > 0 {
      StockAfterClicks(k - 1);
    }
  }

  /** Nothing re-enables the button: once disabled, it stays disabled and
      keeps its sold-out text through any number of further clicks. */
  lemma {:induction false} DisabledStaysDisabled(s: Screen, k: nat)
    requires s.disabled && s.text == SoldOutText
    ensures Clicks(s, k).disabled && Clicks(s, k).text == SoldOutText
    decreases k
  {
    if k > 0 {
      DisabledStaysDisabled(s, k - 1);
    }
  }

  // ---------------------------------------------------------------------
  // The screen as the handler mutates it

  class StockControl {
    var stock: int
    var shown: int
    var disabled: bool
    var text: string
    var display: Display

    function State(): Screen
      reads this
    {
      Screen(stock, shown, disabled, text, display)
    }

    constructor ()
      ensures State() == Initial()
    {
      stock := InitialStock;
      shown := InitialStock;
      disabled := false;
      text := ButtonText;
      display := Normal;
    }

    /** `boton_click`: decrement a positive stock and redraw. */
    method BotonClick()
      modifies this
      ensures State() == Click(old(State()))
      ensures old(Consistent(State())) ==> Consistent(State())
    {
      if stock > 0 {
        stock := stock - 1;
        shown := stock;
        if stock == 0 {
          disabled := true;
          text := SoldOutText;
          display := SoldOut;
        } else if stock < LowStockBelow {
          display := LowStock;
        } else {
          display := Normal;
        }
      }
    }
  }
}
