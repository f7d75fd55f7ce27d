/** Failure-carrying values, and the places where the firmware's own
    behaviour is undefined. The model never guesses what undefined C code
    does: it stops with a `Hazard` that names the defect instead. */
module Outcomes {

  datatype Option<+T> = None | Some(value: T)

  datatype Result<+R, +E> = Success(value: R) | Failure(error: E)

  datatype Hazard =
    /** `findSmallestObject` opened a sixteenth object: the write to
        `objectStartAngles[objectCount]` lands beyond the 15-slot array. */
    | ObjectTableOverflow
    /** No object qualified, so the 255 "no object" angle was used to index
        the 91-sample scan (index 127). */
    | SentinelIndex
    /** `isVisitedTable` found all five table slots occupied and none
        matching, and its loop condition then reads slot 5 before it tests
        the cursor bound. */
    | TableSlotPastEnd
}
