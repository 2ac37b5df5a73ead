/** The host's lifecycle errors in terms of what arrived: a pointer is down if the last Down, Up or Cancel of it was
    a Down, and every sample that does not fit that is one error. */
module Lifecycle {
  import opened Bytes
  import opened Protocol
  import opened Metrics

  predicate Of(m: Mark, p: Pointer) { (m.device, m.id) == p }

  /** Sample k is a Down of the pointer, and no Up or Cancel of it follows. */
  predicate DownSince(marks: seq<Mark>, p: Pointer, k: nat)
    requires k < |marks|
  {
    Of(marks[k], p) && marks[k].action == Down &&
    forall j :: k < j < |marks| && Of(marks[j], p) ==> marks[j].action != Up && marks[j].action != Cancel
  }

  ghost predicate IsDown(marks: seq<Mark>, p: Pointer) { exists k :: 0 <= k < |marks| && DownSince(marks, p, k) }

  /** A second Down, or anything but a Down or a Hover of a pointer that is not down. */
  ghost predicate IsWrong(before: seq<Mark>, m: Mark) {
    match m.action
    case Down => IsDown(before, (m.device, m.id))
    case Hover => false
    case _ => !IsDown(before, (m.device, m.id))
  }

  ghost function Wrongs(marks: seq<Mark>): nat {
    if marks == [] then 0
    else
      var front, last := marks[..|marks| - 1], marks[|marks| - 1];
      Wrongs(front) + if IsWrong(front, last) then 1 else 0
  }

  lemma DownAfter(front: seq<Mark>, m: Mark, p: Pointer)
    ensures IsDown(front + [m], p) <==>
      if Of(m, p) && (m.action == Up || m.action == Cancel) then false
      else IsDown(front, p) || (Of(m, p) && m.action == Down)
  {
    var all := front + [m];
    if IsDown(front, p) && !(Of(m, p) && (m.action == Up || m.action == Cancel)) {
      var k :| 0 <= k < |front| && DownSince(front, p, k);
      assert DownSince(all, p, k);
    }
    if Of(m, p) && m.action == Down { assert DownSince(all, p, |front|); }
    if IsDown(all, p) {
      var k :| 0 <= k < |all| && DownSince(all, p, k);
      assert all[|front|] == m;
      if k < |front| {
        forall j | k < j < |front| && Of(front[j], p) ensures front[j].action != Up && front[j].action != Cancel {
          assert all[j] == front[j];
        }
        assert DownSince(front, p, k);
      }
    }
  }

  /** The active set and the error count are what the samples say, over any sequence of them. */
  lemma {:induction false} LifeIsHistory(marks: seq<Mark>, p: Pointer)
    ensures p in LivedAll(Life({}, 0), marks).active <==> IsDown(marks, p)
    ensures LivedAll(Life({}, 0), marks).errors == Wrongs(marks)
  {
    hide IsDown;
    if marks == [] {
      assert !IsDown([], p) by { NothingIsDown(p); }
    } else {
      var front, last := marks[..|marks| - 1], marks[|marks| - 1];
      assert marks == front + [last];
      LifeIsHistory(front, p);
      LifeIsHistory(front, (last.device, last.id));
      DownAfter(front, last, p);
    }
  }

  lemma NothingIsDown(p: Pointer)
    ensures !IsDown([], p)
  {
  }
}
