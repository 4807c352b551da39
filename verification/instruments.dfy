/** `get_target_dirs`: which remote subdirectories are synced for an instrument. */
module Instruments {

  /** Instruments whose data lives under other subdirectories than the default ones. */
  const SpecialCases: map<string, seq<string>> := map[
    "mag" := ["l2/sav/1sec", "l2/sav/30sec", "l2/sav/full"],
    "sep" := ["l2", "l3/pad/sav"],
    "euv" := ["l2", "l3"],
    "sta" := ["l2", "l3/cio", "l3/density", "l3/temperature"]
  ]

  const DefaultDirs: seq<string> := ["l2", "ql"]

  predicate Distinct(s: seq<string>) {
    forall i, j :: 0 <= i < j < |s| ==> s[i] != s[j]
  }

  /**
   * The instrument's override list, in its configured order, or the default list for any
   * other identifier. Never empty, and no subdirectory is listed twice, so no
   * (subdirectory, month) pair is synced twice.
   */
  function TargetDirs(instrument: string): (dirs: seq<string>)
    ensures |dirs| > 0 && Distinct(dirs)
    ensures instrument !in SpecialCases ==> dirs == ["l2", "ql"]
  {
    if instrument in SpecialCases then SpecialCases[instrument] else DefaultDirs
  }

  /** The table, entry by entry, and the default for an instrument not in it. */
  lemma TargetDirsTable()
    ensures TargetDirs("mag") == ["l2/sav/1sec", "l2/sav/30sec", "l2/sav/full"]
    ensures TargetDirs("sep") == ["l2", "l3/pad/sav"]
    ensures TargetDirs("euv") == ["l2", "l3"]
    ensures TargetDirs("sta") == ["l2", "l3/cio", "l3/density", "l3/temperature"]
    ensures TargetDirs("swe") == ["l2", "ql"]
  {
  }
}
