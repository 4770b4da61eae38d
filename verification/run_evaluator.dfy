/**
 * The driver of `run_evaluator.py`: the company ids are gathered from the
 * canonical file names before each company is analyzed.
 */
module RunEvaluator {
  import opened Wrappers
  import opened Strings
  import Evaluator

  /**
   * The id a file name contributes: its first two '_'-separated parts
   * joined by '_', for a ".csv" name that has at least two parts.
   */
  function CompanyIdOf(name: string): (id: Option<string>)
    ensures id.Some? <==> EndsWith(name, ".csv") && '_' in name
  {
    if EndsWith(name, ".csv") then
      var parts := Split(name, '_');
      SplitCount(name, '_');
      if |parts| >= 2 then Some(parts[0] + "_" + parts[1]) else None
    else None
  }

  /** The ids the loop collects: every id some name contributes. */
  function CompanyIds(names: seq<string>): set<string>
  {
    set i | 0 <= i < |names| && CompanyIdOf(names[i]).Some? :: CompanyIdOf(names[i]).value
  }

  /** The id loop of `main`: each id is kept once, however many files share it. */
  method CollectCompanyIds(names: seq<string>) returns (ids: set<string>)
    ensures forall id :: id in ids <==> exists i :: 0 <= i < |names| && CompanyIdOf(names[i]) == Some(id)
    ensures |ids| <= |names|
    ensures ids == CompanyIds(names)
  {
    ids := {};
    for i := 0 to |names|
      invariant forall id :: id in ids <==> exists j :: 0 <= j < i && CompanyIdOf(names[j]) == Some(id)
      invariant |ids| <= i
    {
      var f := names[i];
      if EndsWith(f, ".csv") {
        var parts := Split(f, '_');
        if |parts| >= 2 {
          ids := ids + {parts[0] + "_" + parts[1]};
        }
      }
    }
    CollectedIds(names, ids);
  }

  /** The collected set is the set of contributed ids. */
  lemma {:induction false} CollectedIds(names: seq<string>, ids: set<string>)
    requires forall id :: id in ids <==> exists i :: 0 <= i < |names| && CompanyIdOf(names[i]) == Some(id)
    ensures ids == CompanyIds(names)
  {
    forall id | id in CompanyIds(names)
      ensures id in ids
    {
      var i :| 0 <= i < |names| && CompanyIdOf(names[i]).Some? && CompanyIdOf(names[i]).value == id;
    }
  }

  /** The evaluator's file filter selects every file an id was taken from. */
  lemma {:induction false} IdSelectsItsFile(name: string, id: string)
    requires CompanyIdOf(name) == Some(id)
    ensures Evaluator.Selected(id, name)
  {
    SplitAtSeparator(name, '_');
    SplitPrefix(name, '_');
  }

  /** The report's entity and period of an id are the two name parts it was made of. */
  lemma {:induction false} IdEntityPeriod(name: string, id: string)
    requires CompanyIdOf(name) == Some(id)
    ensures Evaluator.Entity(id) == Split(name, '_')[0]
    ensures Evaluator.Period(id) == Split(name, '_')[1]
  {
    var parts := Split(name, '_');
    SplitAtSeparator(name, '_');
    SplitAround(parts[0], parts[1], '_');
    assert id == parts[0] + ['_'] + parts[1];
    assert id[|parts[0]|] == '_';
  }
}
