/** The slide show of apps/toys/FXSlideShow: a cursor over a list of files and three slots that prefetch
    its neighbours. */
module SlideShow {
  import opened Words

  type Path = string

  // ---------------------------------------------------------------------------------------------
  // The cursor
  // ---------------------------------------------------------------------------------------------

  /** A position in a list of n files, which may be closed to a loop. */
  datatype Cursor = Cursor(n: int, current: int, loop: bool) {

    predicate Valid() {
      0 <= current < n
    }

    /** The position after this one, or -1. */
    function Next(): int {
      if current + 1 < n then current + 1 else if loop then 0 else -1
    }

    function Prev(): int {
      if current > 0 then current - 1 else if loop then n - 1 else -1
    }

    /** Where a move leads, or -1. */
    function Toward(forward: bool): int {
      if forward then Next() else Prev()
    }

    function At(position: int): Cursor {
      this.(current := position)
    }
  }

  /** Going back is the inverse of going forward. */
  lemma ThereAndBack(c: Cursor, forward: bool)
    requires c.Valid() && c.Toward(forward) >= 0
    ensures c.At(c.Toward(forward)).Valid() && c.At(c.Toward(forward)).Toward(!forward) == c.current
  {
  }

  /** Files.java */
  class Files {
    var theFiles: seq<Path>
    var prev: int
    var current: int
    var next: int
    var loop: bool

    constructor ()
      ensures theFiles == [] && current == 0 && !loop
    {
      theFiles, prev, current, next, loop := [], -1, 0, 1, false;
    }

    ghost function Here(): Cursor
      reads this
    {
      Cursor(|theFiles|, current, loop)
    }

    /** The announced positions fit the cursor. */
    ghost predicate Announces()
      reads this
    {
      next == Here().Next() && prev == Here().Prev()
    }

    ghost predicate Valid()
      reads this
    {
      Here().Valid() && Announces()
    }

    method GetPrev() returns (p: int)
      ensures p == Here().Prev()
    {
      p := current - 1;
      if p < 0 {
        if loop {
          p := |theFiles| - 1;
        } else {
          p := -1;
        }
      }
    }

    method GetNext() returns (n: int)
      ensures n == Here().Next()
    {
      n := current + 1;
      if n >= |theFiles| {
        if loop {
          n := 0;
        } else {
          n := -1;
        }
      }
    }

    /** Move forward: the new position is the one that was announced as the next, even in an empty list. */
    method Next() returns (moved: bool)
      requires Announces()
      modifies this`current, this`next, this`prev
      ensures Announces() && current == if moved then old(next) else old(current)
      ensures moved == (loop || old(current) + 1 < |theFiles|)
      ensures old(Valid()) ==> Valid() && moved == (old(next) >= 0)
    {
      if current + 1 < |theFiles| {
        current := current + 1;
      } else if loop {
        current := 0;
      } else {
        return false;
      }
      next := GetNext();
      prev := GetPrev();
      return true;
    }

    /** Back up: the new position is the one that was announced as the previous; in an empty loop that is -1. */
    method Previous() returns (moved: bool)
      requires Announces()
      modifies this`current, this`next, this`prev
      ensures Announces() && current == if moved then old(prev) else old(current)
      ensures moved == (loop || old(current) > 0)
      ensures old(Valid()) ==> Valid() && moved == (old(prev) >= 0)
    {
      if current > 0 {
        current := current - 1;
      } else if loop {
        current := |theFiles| - 1;
      } else {
        return false;
      }
      next := GetNext();
      prev := GetPrev();
      return true;
    }

    /** Whatever the announced positions were, they fit the cursor afterwards. */
    method SetLoop(loop: bool)
      modifies this
      ensures Announces() && this.loop == loop && theFiles == old(theFiles) && current == old(current)
    {
      this.loop := loop;
      prev := GetPrev();
      next := GetNext();
    }

    method PathAt(position: int) returns (path: Option<Path>)
      requires position < |theFiles|
      ensures path == PathIn(theFiles, position)
    {
      if position >= 0 {
        return Some(theFiles[position]);
      }
      return None;
    }
  }

  function PathIn(files: seq<Path>, position: int): Option<Path>
    requires position < |files|
  {
    if position >= 0 then Some(files[position]) else None
  }

  // ---------------------------------------------------------------------------------------------
  // The slots
  // ---------------------------------------------------------------------------------------------

  /** What the show holds: the cursor and the paths of the images in the three slots. */
  datatype State = State(files: seq<Path>, cursor: Cursor, shown: Path, next: Option<Path>, prev: Option<Path>) {

    predicate Valid() {
      cursor.Valid() && cursor.n == |files|
    }

    function Slot(forward: bool): Option<Path> {
      if forward then next else prev
    }

    /** The file that the cursor announces in a direction. */
    function Announced(forward: bool): Option<Path>
      requires Valid()
    {
      PathIn(files, cursor.Toward(forward))
    }

    /** The shown image is the cursor's file; the other slots are empty or hold its neighbours. */
    predicate Synced() {
      && Valid() && shown == files[cursor.current]
      && (next == None || next == Announced(true)) && (prev == None || prev == Announced(false))
    }

    /** Both neighbours are there, as far as they exist. */
    predicate Full() {
      Synced() && next == Announced(true) && prev == Announced(false)
    }
  }

  function Started(files: seq<Path>, loop: bool): State
    requires |files| > 0
  {
    var c := Cursor(|files|, 0, loop);
    State(files, c, files[0], PathIn(files, c.Next()), None)
  }

  /** One press of a key: the slot ahead becomes the shown one, the shown one goes behind if it is kept,
      and the slot ahead is filled anew. */
  function Step(s: State, forward: bool, keep: bool): State
    requires s.Valid()
  {
    var to := s.cursor.Toward(forward);
    if to < 0 then s
    else
      var c := s.cursor.At(to);
      var shown := if s.Slot(forward).Some? then s.Slot(forward).value else s.files[to];
      var behind := if keep then Some(s.shown) else None;
      var ahead := PathIn(s.files, c.Toward(forward));
      if forward then State(s.files, c, shown, ahead, behind) else State(s.files, c, shown, behind, ahead)
  }

  /** The state after a run of moves. */
  function Run(s: State, moves: seq<bool>, keep: bool): (s': State)
    requires s.Valid()
    ensures s'.Valid() && s'.files == s.files && s'.cursor.loop == s.cursor.loop
  {
    if moves == [] then s else Step(Run(s, moves[..|moves| - 1], keep), moves[|moves| - 1], keep)
  }

  lemma StepStaysSynced(s: State, forward: bool, keep: bool)
    requires s.Synced()
    ensures Step(s, forward, keep).Synced()
  {
    if s.cursor.Toward(forward) >= 0 {
      ThereAndBack(s.cursor, forward);
    }
  }

  /** In every run the slots follow the cursor. */
  lemma {:induction false} RunStaysSynced(s: State, moves: seq<bool>, keep: bool)
    requires s.Synced()
    ensures Run(s, moves, keep).Synced()
  {
    if moves != [] {
      RunStaysSynced(s, moves[..|moves| - 1], keep);
      StepStaysSynced(Run(s, moves[..|moves| - 1], keep), moves[|moves| - 1], keep);
    }
  }

  lemma StartIsSynced(files: seq<Path>, loop: bool)
    requires |files| > 0
    ensures Started(files, loop).Synced()
  {
  }

  /** A move that succeeds fills both slots, when the shown image is kept. */
  lemma MoveFills(s: State, forward: bool)
    requires s.Synced() && s.cursor.Toward(forward) >= 0
    ensures Step(s, forward, true).Full()
  {
    ThereAndBack(s.cursor, forward);
  }

  /** In a full show a move and the opposite move cancel out, slots included. */
  lemma OppositeMovesCancel(s: State, forward: bool)
    requires s.Full() && s.cursor.Toward(forward) >= 0
    ensures Step(Step(s, forward, true), !forward, true) == s
  {
    ThereAndBack(s.cursor, forward);
  }

  /** The move has to wait for an image that nobody has asked for before. */
  predicate Stalls(s: State, forward: bool) {
    s.cursor.Toward(forward) >= 0 && s.Slot(forward) == None
  }

  /** When images are kept, only one move of a run can stall: the first one, and only if it goes backwards
      from the first file of a loop. */
  lemma {:induction false} StallsIff(files: seq<Path>, loop: bool, moves: seq<bool>, forward: bool)
    requires |files| > 0
    ensures Stalls(Run(Started(files, loop), moves, true), forward)
       <==> loop && !forward && moves == []
  {
    var s := Started(files, loop);
    if moves != [] {
      SlotsAlongRun(files, loop, moves);
    }
  }

  /** Once a show has moved it stays full; before that it is where it started, and at the first file of an
      open list a backward move does not count. */
  lemma {:induction false} SlotsAlongRun(files: seq<Path>, loop: bool, moves: seq<bool>)
    requires |files| > 0
    ensures var s := Run(Started(files, loop), moves, true);
      (s == Started(files, loop) && (loop ==> moves == [])) || s.Full()
  {
    if moves != [] {
      var before := moves[..|moves| - 1];
      var s, forward := Run(Started(files, loop), before, true), moves[|moves| - 1];
      SlotsAlongRun(files, loop, before);
      StartIsSynced(files, loop);
      if s.cursor.Toward(forward) >= 0 {
        MoveFills(s, forward);
      }
    }
  }

  /** The direction of the last move of a run that succeeded, if any did. */
  function LastMove(s: State, moves: seq<bool>, keep: bool): Option<bool>
    requires s.Valid()
  {
    if moves == [] then None
    else
      var before, forward := moves[..|moves| - 1], moves[|moves| - 1];
      if Run(s, before, keep).cursor.Toward(forward) >= 0 then Some(forward) else LastMove(s, before, keep)
  }

  /** When images are not kept, a move stalls exactly when it turns back: against the last move that succeeded, or
      at the beginning backwards from the first file of a loop. */
  lemma {:induction false} StallsWithoutKeeping(files: seq<Path>, loop: bool, moves: seq<bool>, forward: bool)
    requires |files| > 0
    ensures var s0 := Started(files, loop);
      Stalls(Run(s0, moves, false), forward) <==>
        match LastMove(s0, moves, false)
        case Some(last) => forward != last
        case None => loop && !forward
  {
    SlotsWithoutKeeping(files, loop, moves);
  }

  /** What a show that keeps nothing holds: the slot ahead of the last move, and nothing behind it. */
  lemma {:induction false} SlotsWithoutKeeping(files: seq<Path>, loop: bool, moves: seq<bool>)
    requires |files| > 0
    ensures var s0 := Started(files, loop);
      var s := Run(s0, moves, false);
      match LastMove(s0, moves, false)
      case Some(last) =>
        s.Slot(last) == s.Announced(last) && s.Slot(!last) == None && s.cursor.Toward(!last) >= 0
      case None => s == s0
  {
    if moves != [] {
      var before, forward := moves[..|moves| - 1], moves[|moves| - 1];
      SlotsWithoutKeeping(files, loop, before);
      var s := Run(Started(files, loop), before, false);
      if s.cursor.Toward(forward) >= 0 {
        ThereAndBack(s.cursor, forward);
      }
    }
  }

  /** Forward moves less backward moves. */
  function Net(moves: seq<bool>): int {
    if moves == [] then 0 else Net(moves[..|moves| - 1]) + (if moves[|moves| - 1] then 1 else -1)
  }

  lemma {:induction false} ModStep(x: int, n: int)
    requires n > 0
    ensures (x + 1) % n == (if x % n + 1 < n then x % n + 1 else 0)
    ensures (x - 1) % n == (if x % n > 0 then x % n - 1 else n - 1)
  {
    var q, r := x / n, x % n;
    assert x == q * n + r;
    if r + 1 < n {
      ModIs(x + 1, n, q, r + 1);
    } else {
      assert (q + 1) * n == q * n + n;
      ModIs(x + 1, n, q + 1, 0);
    }
    if r > 0 {
      ModIs(x - 1, n, q, r - 1);
    } else {
      assert (q - 1) * n == q * n - n;
      ModIs(x - 1, n, q - 1, n - 1);
    }
  }

  /** In a loop the cursor is where the net number of moves puts it, however the moves are mixed. */
  lemma {:induction false} LoopPosition(files: seq<Path>, moves: seq<bool>, keep: bool)
    requires |files| > 0
    ensures Run(Started(files, true), moves, keep).cursor.current == Net(moves) % |files|
  {
    if moves != [] {
      var before := moves[..|moves| - 1];
      LoopPosition(files, before, keep);
      ModStep(Net(before), |files|);
    }
  }

  /** A walk over the positions of an open list that stops at both ends. */
  function Walk(n: int, moves: seq<bool>): int {
    if moves == [] then 0
    else
      var to := Walk(n, moves[..|moves| - 1]) + (if moves[|moves| - 1] then 1 else -1);
      if to < 0 then 0 else if to > n - 1 then n - 1 else to
  }

  /** In an open list the cursor walks and stops at the ends. */
  lemma {:induction false} OpenPosition(files: seq<Path>, moves: seq<bool>, keep: bool)
    requires |files| > 0
    ensures Run(Started(files, false), moves, keep).cursor.current == Walk(|files|, moves)
  {
    if moves != [] {
      OpenPosition(files, moves[..|moves| - 1], keep);
    }
  }

  // ---------------------------------------------------------------------------------------------
  // The show
  // ---------------------------------------------------------------------------------------------

  datatype Status = Ready | Scheduled | Running | Done | Cancelled

  /** ImageLoadingTask; the executor and the event thread change its status at any time. */
  class Task {
    const path: Path
    var status: Status

    constructor (path: Path)
      ensures this.path == path && status == Ready
    {
      this.path := path;
      status := Ready;
    }
  }

  const CURRENT := 0
  const NEXT := 1
  const PREV := 2

  class Show {
    const files: Files
    const image: array<Task?>
    const savePrevious: bool
    var busy: bool

    ghost predicate Valid()
      reads this, files, image
    {
      files.Valid() && image.Length == 3 && image[CURRENT] != null && Distinct() && View().Synced()
    }

    /** No task is in two slots, so cancelling one slot's task leaves the others alone. */
    ghost predicate Distinct()
      reads image
      requires image.Length == 3
    {
      forall i, j | 0 <= i < j < 3 :: image[i] != null ==> image[i] != image[j]
    }

    ghost function PathOf(i: int): Option<Path>
      requires 0 <= i < image.Length
      reads image
    {
      if image[i] == null then None else Some(image[i].path)
    }

    ghost function View(): State
      requires files.Valid() && image.Length == 3 && image[CURRENT] != null
      reads this, files, image
    {
      State(files.theFiles, files.Here(), image[CURRENT].path, PathOf(NEXT), PathOf(PREV))
    }

    /** No slot holds a task that has been given up. */
    ghost predicate NoneCancelled()
      reads image, set i | 0 <= i < image.Length && image[i] != null :: image[i]
    {
      forall i | 0 <= i < image.Length :: image[i] != null ==> image[i].status != Cancelled
    }

    /** The initial fill of the slots. */
    constructor (files: Files, loop: bool, savePrevious: bool)
      requires |files.theFiles| > 0 && files.current == 0
      modifies files
      ensures Valid() && NoneCancelled() && this.files == files && this.savePrevious == savePrevious
      ensures files.theFiles == old(files.theFiles) && fresh(image)
      ensures View() == Started(files.theFiles, loop)
    {
      this.files := files;
      this.savePrevious := savePrevious;
      busy := false;
      image := new Task?[3](_ => null);
      new;
      files.SetLoop(loop);
      image[CURRENT] := new Task(files.theFiles[files.current]);
      var nf := files.PathAt(files.next);
      if nf.Some? {
        image[NEXT] := new Task(nf.value);
      }
    }

    /** What giving a task up makes of its status: nothing that is given up goes on. */
    function AfterGivingUp(status: Status): (after: Status)
      ensures after !in {Scheduled, Running} && (status !in {Scheduled, Running} ==> after == status)
      ensures status in {Scheduled, Running} ==> after == Cancelled
    {
      if status in {Scheduled, Running} then Cancelled else status
    }

    /** Stop a task that is at work; a JavaFX worker counts as running as soon as it is scheduled. */
    method GiveUp(task: Task)
      modifies task
      ensures task.status == AfterGivingUp(old(task.status))
    {
      if task.status == Scheduled || task.status == Running {
        task.status := Cancelled;
      }
    }

    /** The tasks themselves: the one ahead is shown as it is, the shown one is kept as it is or given up, the one
        behind is given up; the indicator tells whether the shown image has still to come. */
    twostate predicate Rotated(was: seq<Task?>, ahead: int, behind: int)
      requires |was| == 3 && image.Length == 3 && ahead in {NEXT, PREV} && behind in {NEXT, PREV}
      requires was[CURRENT] != null && image[CURRENT] != null
      reads this, image, image[CURRENT], set i | 0 <= i < |was| && was[i] != null :: was[i]
    {
      && (if was[ahead] == null then fresh(image[CURRENT])
          else image[CURRENT] == was[ahead] && was[ahead].status == old(was[ahead].status))
      && image[behind] == (if savePrevious then was[CURRENT] else null)
      && was[CURRENT].status
         == (if savePrevious then old(was[CURRENT].status) else AfterGivingUp(old(was[CURRENT].status)))
      && (was[behind] != null ==> was[behind].status == AfterGivingUp(old(was[behind].status)))
      && (busy <==> image[CURRENT].status != Done)
    }

    /** The shown image makes room: it goes behind if it is kept. */
    method PutBehind(behind: int)
      requires image.Length == 3 && behind in {NEXT, PREV} && image[CURRENT] != null && Distinct() && NoneCancelled()
      modifies image, set i | 0 <= i < image.Length && image[i] != null :: image[i]
      ensures image[NEXT + PREV - behind] == old(image[NEXT + PREV - behind])
      ensures image[behind] == if savePrevious then old(image[CURRENT]) else null
      ensures image[CURRENT] == old(image[CURRENT])
      ensures forall i | 1 <= i < 3 && image[i] != null :: image[i].status != Cancelled
      ensures image[NEXT + PREV - behind] != null ==>
        image[NEXT + PREV - behind].status == old(image[NEXT + PREV - behind].status)
      ensures old(image[CURRENT]).status
           == (if savePrevious then old(image[CURRENT].status) else AfterGivingUp(old(image[CURRENT].status)))
      ensures old(image[behind]) != null ==> old(image[behind]).status == AfterGivingUp(old(image[behind].status))
    {
      if image[behind] != null {
        GiveUp(image[behind]);
        image[behind] := null;
      }
      if savePrevious {
        image[behind] := image[CURRENT];
      } else {
        GiveUp(image[CURRENT]);
      }
    }

    /** The image ahead is shown, or loaded if it is not there; then the slot ahead is filled. */
    method TakeAhead(ahead: int, here: Path, path: Option<Path>)
      requires image.Length == 3 && ahead in {NEXT, PREV}
      requires image[NEXT] == null || image[NEXT] != image[PREV]
      requires forall i | 1 <= i < 3 && image[i] != null :: image[i].status != Cancelled
      modifies this`busy, image
      ensures Distinct() && NoneCancelled() && image[CURRENT] != null
      ensures image[CURRENT].path == if old(image[ahead]) != null then old(image[ahead]).path else here
      ensures old(image[ahead]) != null ==> image[CURRENT] == old(image[ahead])
      ensures old(image[ahead]) == null ==> fresh(image[CURRENT])
      ensures busy <==> image[CURRENT].status != Done
      ensures PathOf(ahead) == path && image[NEXT + PREV - ahead] == old(image[NEXT + PREV - ahead])
    {
      image[CURRENT] := image[ahead];
      image[ahead] := null;
      if image[CURRENT] == null {
        image[CURRENT] := new Task(here);
        busy := true;
      } else if image[CURRENT].status == Done {
        busy := false;
      } else {
        busy := true;
      }
      if path.Some? {
        image[ahead] := new Task(path.value);
      }
    }

    /** The slots make a turn: what was ahead is shown, what was shown goes behind. */
    method Rotate(ahead: int, behind: int, path: Option<Path>)
      requires image.Length == 3 && ahead in {NEXT, PREV} && behind == NEXT + PREV - ahead
      requires files.Here().Valid() && image[CURRENT] != null && Distinct() && NoneCancelled()
      modifies this`busy, image, set i | 0 <= i < image.Length && image[i] != null :: image[i]
      ensures Distinct() && NoneCancelled() && image[CURRENT] != null && PathOf(ahead) == path
      ensures image[CURRENT].path
           == (if old(image[ahead]) != null then old(image[ahead]).path else files.theFiles[files.current])
      ensures PathOf(behind) == if savePrevious then old(PathOf(CURRENT)) else None
      ensures Rotated(old(image[..]), ahead, behind)
    {
      PutBehind(behind);
      TakeAhead(ahead, files.theFiles[files.current], path);
    }

    method GoForward()
      requires Valid() && NoneCancelled()
      modifies this`busy, files`current, files`next, files`prev, image
      modifies set i | 0 <= i < image.Length && image[i] != null :: image[i]
      ensures Valid() && NoneCancelled() && View() == Step(old(View()), true, savePrevious)
      ensures old(files.next) >= 0 ==> Rotated(old(image[..]), NEXT, PREV)
      ensures old(files.next) < 0 ==> image[..] == old(image[..]) && busy == old(busy)
    {
      StepStaysSynced(View(), true, savePrevious);
      var moved := files.Next();
      if moved {
        var path := files.PathAt(files.next);
        assert image[..] == old(image[..]);
        Rotate(NEXT, PREV, path);
      }
    }

    method GoBack()
      requires Valid() && NoneCancelled()
      modifies this`busy, files`current, files`next, files`prev, image
      modifies set i | 0 <= i < image.Length && image[i] != null :: image[i]
      ensures Valid() && NoneCancelled() && View() == Step(old(View()), false, savePrevious)
      ensures old(files.prev) >= 0 ==> Rotated(old(image[..]), PREV, NEXT)
      ensures old(files.prev) < 0 ==> image[..] == old(image[..]) && busy == old(busy)
    {
      StepStaysSynced(View(), false, savePrevious);
      var moved := files.Previous();
      if moved {
        var path := files.PathAt(files.prev);
        assert image[..] == old(image[..]);
        Rotate(PREV, NEXT, path);
      }
    }

    /** nextImage: one move.  The images already loaded are handed on, the others are given up. */
    method NextImage(forward: bool)
      requires Valid() && NoneCancelled()
      modifies this`busy, files`current, files`next, files`prev, image
      modifies set i | 0 <= i < image.Length && image[i] != null :: image[i]
      ensures Valid() && NoneCancelled()
      ensures View() == Step(old(View()), forward, savePrevious)
      ensures old(files.Here().Toward(forward)) >= 0 ==>
        if forward then Rotated(old(image[..]), NEXT, PREV) else Rotated(old(image[..]), PREV, NEXT)
      ensures old(files.Here().Toward(forward)) < 0 ==> image[..] == old(image[..]) && busy == old(busy)
    {
      hide Rotated;
      if forward {
        GoForward();
      } else {
        GoBack();
      }
    }
  }
}
