/** The bulk deletion of tools/main.go: pages are handed to goroutines in batches, and
    each batch is joined with a wait group. */
module DeleteTool {

  const PAGE_SIZE := 1000
  const MAX_THREADS := 10

  /** The answer of getNumObjectsF. */
  datatype Counted = Failed | Total(n: int)

  datatype Outcome = CountFailed | Returned | Hung

  /** math.Ceil of the quotient. */
  function NumPages(count: int): int {
    -(-(count as real / PAGE_SIZE as real)).Floor
  }

  /** The pages are as many as are needed to hold the objects, and no more. */
  lemma PagesCover(count: int)
    ensures (NumPages(count) - 1) * PAGE_SIZE < count <= NumPages(count) * PAGE_SIZE
  {
    var q := count as real / PAGE_SIZE as real;
    var n := NumPages(count);
    assert n as real - 1.0 < q <= n as real;
    assert q * PAGE_SIZE as real == count as real;
    assert (n as real - 1.0) * 1000.0 < count as real <= n as real * 1000.0;
    assert ((n - 1) * PAGE_SIZE) as real == (n as real - 1.0) * 1000.0;
  }

  /** One batch, from page `first`: the pages launched, the most workers in flight at
      once, and what the wait group still waits for when every launched worker has
      finished. Between two launches any number of running workers may finish. */
  method Batch(first: nat, numPages: nat) returns (launched: seq<int>, waiting: int, peak: nat)
    requires first < numPages
    ensures var n := if first + MAX_THREADS <= numPages + 1 then MAX_THREADS else numPages + 1 - first;
            launched == seq(n, k => first + k) && waiting == MAX_THREADS - n
    ensures peak <= |launched|
  {
    launched, peak := [], 0;
    var running: nat, counter := 0, MAX_THREADS;
    var j := 0;
    while j < MAX_THREADS
      invariant 0 <= j <= MAX_THREADS && first + j <= numPages + 1
      invariant launched == seq(j, k => first + k)
      invariant running <= j && counter == MAX_THREADS - j + running
      invariant running <= peak <= j
    {
      var id := first + j;
      if id > numPages {
        break;
      }
      running := running + 1;
      launched := launched + [id];
      if running > peak { peak := running; }
      var finished :| 0 <= finished <= running;
      running, counter := running - finished, counter - finished;
      j := j + 1;
    }
    waiting := counter - running;
  }

  /** Every page is handed out once and in order, with one page past the end exactly when
      the last batch is not full; never more than ten are in flight; and the last join
      returns exactly when the number of pages leaves 0 or 9 modulo ten. */
  method DeleteAllObjects(counted: Counted) returns (outcome: Outcome, dispatched: seq<int>, peak: nat)
    ensures counted.Failed? ==> outcome == CountFailed && dispatched == []
    ensures counted.Total? && counted.n <= 0 ==> outcome == Returned && dispatched == []
    ensures counted.Total? && counted.n > 0 ==>
              var pages := NumPages(counted.n);
              && dispatched == seq(pages + if pages % 10 == 0 then 0 else 1, k => k)
              && outcome == if pages % 10 == 0 || pages % 10 == 9 then Returned else Hung
    ensures peak <= MAX_THREADS
  {
    dispatched, peak := [], 0;
    if counted.Failed? {
      return CountFailed, dispatched, peak;
    }
    if counted.n == 0 {
      return Returned, dispatched, peak;
    }
    var numPages := NumPages(counted.n);
    PagesCover(counted.n);
    var i := 0;
    while i < numPages
      invariant 0 <= i && i % MAX_THREADS == 0
      invariant i == 0 || i <= numPages + 1
      invariant dispatched == seq(i, k => k)
      invariant peak <= MAX_THREADS
    {
      var launched, waiting, most := Batch(i, numPages);
      dispatched := dispatched + launched;
      if most > peak { peak := most; }
      if waiting != 0 {
        return Hung, dispatched, peak;
      }
      i := i + MAX_THREADS;
    }
    outcome := Returned;
  }
}
