/** Atomic file operations that may fail or be cut by a crash, on either side of their effect. */
module Files {
  datatype Fault = Fine | FailsBefore | FailsAfter | CrashBefore | CrashAfter

  /** How one operation ended for the program running it. */
  datatype Step = Did | Raised | Crashed

  predicate Happens(fault: Fault) { fault in {Fine, FailsAfter, CrashAfter} }

  function Seen(fault: Fault): Step {
    match fault
    case Fine => Did
    case FailsBefore | FailsAfter => Raised
    case CrashBefore | CrashAfter => Crashed
  }

  /** Create if absent: a file that is already there is left alone, and the attempt raises. */
  function Create<V>(files: map<string, V>, name: string, content: V, fault: Fault): (map<string, V>, Step) {
    if name in files then (files, if fault == Fine then Raised else Seen(fault))
    else (if Happens(fault) then files[name := content] else files, Seen(fault))
  }

  function Replace<V>(files: map<string, V>, name: string, content: V, fault: Fault): (map<string, V>, Step) {
    (if Happens(fault) then files[name := content] else files, Seen(fault))
  }

  /** A file that is already gone is not an error. */
  function Unlink<V>(files: map<string, V>, name: string, fault: Fault): (map<string, V>, Step) {
    (if Happens(fault) then files - {name} else files, Seen(fault))
  }
}
