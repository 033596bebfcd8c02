/** Lecture completion per (user, course) pair, as updateUserCourseProgress
    applies it to the pair's CourseProgress record. */
module Progress {
  import opened Records

  /** Whether the lecture was already recorded, and the record afterwards. */
  datatype ProgressStep = ProgressStep(alreadyCompleted: bool, record: CourseProgress)

  /** One lecture completion against the pair's record, if any:
      a recorded lecture changes nothing; a new one is appended and marks the
      record completed; without a record a new one is started holding just
      this lecture. The recorded lectures only ever grow at the end. */
  function RecordLecture(existing: Option<CourseProgress>, userId: string, courseId: string,
                         lectureId: string): (r: ProgressStep)
    ensures r.alreadyCompleted <==> existing.Some? && lectureId in existing.value.lectureCompleted
    ensures r.alreadyCompleted ==> r.record == existing.value
    ensures lectureId in r.record.lectureCompleted
    ensures existing.Some? ==>
      && r.record.userId == existing.value.userId
      && r.record.courseId == existing.value.courseId
      && |existing.value.lectureCompleted| <= |r.record.lectureCompleted|
      && r.record.lectureCompleted[..|existing.value.lectureCompleted|] == existing.value.lectureCompleted
    ensures existing.Some? && !r.alreadyCompleted ==>
      r.record == existing.value.(lectureCompleted := existing.value.lectureCompleted + [lectureId],
                                  completed := true)
    ensures existing.None? ==> r.record == CourseProgress(userId, courseId, false, [lectureId])
  {
    match existing
    case Some(p) =>
      if lectureId in p.lectureCompleted then ProgressStep(true, p)
      else ProgressStep(false, p.(lectureCompleted := p.lectureCompleted + [lectureId], completed := true))
    case None =>
      ProgressStep(false, CourseProgress(userId, courseId, false, [lectureId]))
  }

  /** Recording the same lecture a second time reports it as already
      completed and leaves the record as the first call left it. */
  lemma RecordLectureIdempotent(existing: Option<CourseProgress>, userId: string, courseId: string,
                                lectureId: string)
    ensures var once := RecordLecture(existing, userId, courseId, lectureId);
            var twice := RecordLecture(Some(once.record), userId, courseId, lectureId);
            twice.alreadyCompleted && twice.record == once.record
  {
  }

  /** The record after completing `lectures` one after another. */
  function RecordAll(existing: Option<CourseProgress>, userId: string, courseId: string,
                     lectures: seq<string>): Option<CourseProgress>
    decreases |lectures|
  {
    if lectures == [] then existing
    else
      var step := RecordLecture(existing, userId, courseId, lectures[0]);
      RecordAll(Some(step.record), userId, courseId, lectures[1..])
  }

  /** Across any sequence of completions the completed lectures never lose an
      element: the earlier list stays a prefix, and every lecture recorded
      along the way is present at the end. */
  lemma {:induction false} RecordAllMonotone(existing: Option<CourseProgress>, userId: string,
                                             courseId: string, lectures: seq<string>)
    ensures lectures != [] || existing.Some? ==> RecordAll(existing, userId, courseId, lectures).Some?
    ensures existing.Some? ==>
      var last := RecordAll(existing, userId, courseId, lectures).value.lectureCompleted;
      && |existing.value.lectureCompleted| <= |last|
      && last[..|existing.value.lectureCompleted|] == existing.value.lectureCompleted
    ensures forall l :: l in lectures ==> l in RecordAll(existing, userId, courseId, lectures).value.lectureCompleted
    decreases |lectures|
  {
    if lectures != [] {
      var step := RecordLecture(existing, userId, courseId, lectures[0]);
      RecordAllMonotone(Some(step.record), userId, courseId, lectures[1..]);
      var last := RecordAll(existing, userId, courseId, lectures).value.lectureCompleted;
      var mid := step.record.lectureCompleted;
      assert last[..|mid|] == mid;
      if existing.Some? {
        var first := existing.value.lectureCompleted;
        assert mid[..|first|] == first;
        assert last[..|first|] == mid[..|first|];
      }
      forall l | l in lectures
        ensures l in last
      {
        if l == lectures[0] {
          assert l in mid;
          var i :| 0 <= i < |mid| && mid[i] == l;
          assert last[..|mid|][i] == l;
        } else {
          assert l in lectures[1..];
        }
      }
    }
  }
}
