/**
 * The counters of the loading screen (src/components/playground/LoadingScreen.tsx):
 * a progress bar advanced by a 500 ms timer, and a flavour text cycled by a
 * 2000 ms timer. Each timer callback is one step; the timers themselves are not
 * modelled.
 */
module Loading {

  const Cap := 90
  const Step := 10

  /** The progress timer: the value and whether the interval is still set. */
  datatype Progress = Progress(value: int, running: bool)

  const InitialProgress := Progress(0, true)

  /** One callback of the progress interval: add 10, and at 90 or beyond stop at exactly 90. */
  function Tick(p: Progress): (q: Progress)
    ensures !p.running ==> q == p
    ensures p.running && p.value + Step >= Cap ==> q == Progress(Cap, false)
    ensures p.running && p.value + Step < Cap ==> q == Progress(p.value + Step, true)
  {
    if !p.running then p
    else if p.value + Step >= Cap then Progress(Cap, false)
    else Progress(p.value + Step, true)
  }

  /** `n` callbacks: a stopped timer changes nothing, and while it runs each callback adds exactly 10. */
  function Ticks(p: Progress, n: nat): (q: Progress)
    ensures !p.running ==> q == p
    ensures q.running ==> p.running && q.value == p.value + Step * n
  {
    if n == 0 then p else Tick(Ticks(p, n - 1))
  }

  function Min(a: int, b: int): int {
    if a <= b then a else b
  }

  /** After `n` callbacks the bar shows min(10 n, 90), and the interval is cleared once it reaches 90. */
  lemma {:induction false} ProgressAfter(n: nat)
    ensures Ticks(InitialProgress, n).value == Min(Step * n, Cap)
    ensures Ticks(InitialProgress, n).running <==> Step * n < Cap
  {
    if n > 0 {
      ProgressAfter(n - 1);
    }
  }

  /** The bar stays within [0, 90], on a multiple of 10, and never goes back. */
  lemma {:induction false} ProgressBounds(n: nat)
    ensures 0 <= Ticks(InitialProgress, n).value <= Cap
    ensures Ticks(InitialProgress, n).value % Step == 0
    ensures Ticks(InitialProgress, n).value <= Ticks(InitialProgress, n + 1).value
  {
    ProgressAfter(n);
    ProgressAfter(n + 1);
  }

  /** Once 90 is reached, further callbacks change nothing. */
  lemma {:induction false} ProgressStaysAtCap(n: nat, m: nat)
    requires Ticks(InitialProgress, n).value == Cap
    ensures Ticks(InitialProgress, n + m) == Progress(Cap, false)
  {
    ProgressAfter(n);
    if m > 0 {
      ProgressStaysAtCap(n, m - 1);
    }
  }

  const Texts := ["Loading awesome content...", "Preparing the magic...", "Hang tight, almost there...", "Initializing the fun..."]

  /** The flavour timer: the shown text and the closure's `currentIndex`. */
  datatype Flavor = Flavor(text: string, index: nat)

  const InitialFlavor := Flavor("", 0)

  /** One callback of the text interval: show `texts[currentIndex]`, then advance the index modulo 4. */
  function TextTick(f: Flavor): (g: Flavor)
    requires f.index < |Texts|
    ensures g.index < |Texts|
    ensures g.text == Texts[f.index]
  {
    Flavor(Texts[f.index], (f.index + 1) % |Texts|)
  }

  function TextTicks(n: nat): (f: Flavor)
    ensures f.index < |Texts|
  {
    if n == 0 then InitialFlavor else TextTick(TextTicks(n - 1))
  }

  /** Before the first callback no text shows; after `n` callbacks it is the ((n - 1) mod 4)-th text. */
  lemma {:induction false} FlavorAfter(n: nat)
    ensures TextTicks(n).index == n % |Texts|
    ensures n == 0 ==> TextTicks(n).text == ""
    ensures n >= 1 ==> TextTicks(n).text == Texts[(n - 1) % |Texts|]
  {
    if n > 0 {
      FlavorAfter(n - 1);
    }
  }
}
