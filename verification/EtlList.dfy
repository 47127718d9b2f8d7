/** The list object that converters and loaders share, and its part in the pipeline's runs. */
module EtlList {
  import opened Sequences
  import opened EtlPipeline

  class SortList {
    var files: seq<File>

    constructor ()
      ensures files == []
    {
      files := [];
    }

    /** PushBack of a new element. */
    method AddSortFile(file: File)
      requires file !in files
      modifies this
      ensures files == old(files) + [file]
    {
      files := files + [file];
    }

    /** Takes the element out wherever it stands and leaves the order of the others, also of one
        with the same name. */
    method RemoveSortFile(file: File)
      requires Distinct(files)
      modifies this
      ensures files == Remove(old(files), file) == Without(old(files), {file})
      ensures file !in files && Distinct(files)
    {
      RemoveIsWithout(files, file);
      WithoutMembers(files, {file});
      var kept: seq<File> := [];
      for i := 0 to |files|
        invariant files == old(files)
        invariant kept == Without(files[..i], {file})
      {
        assert files[..i + 1] == files[..i] + [files[i]];
        WithoutConcat(files[..i], [files[i]], {file});
        assert [files[i]][1..] == [];
        if files[i] != file {
          kept := kept + [files[i]];
        }
      }
      assert files[..|files|] == files;
      files := kept;
    }

    /** Compares the front's name, so the list must not be empty. A file whose
        name no other listed file bears is told the truth about its turn. */
    method IsFirst(file: File) returns (first: bool)
      requires files != []
      ensures first == IsFirstFile(files, file)
      ensures (forall g :: g in files && g.name == file.name ==> g == file) ==>
        (first <==> files[0] == file)
    {
      var front := files[0];
      first := front.name == file.name;
    }

    /** What a step of the pipeline does with the list. A waiting loader asks whether its file is
        first and takes it off when told so. */
    method Perform(c: Config, s: State, l: Label)
      requires Inv(c, s) && Enabled(c, s, l) && files == s.sortList
      modifies this
      ensures files == Next(c, s, l).sortList
    {
      StepInv(c, s, l);
      WithoutMembers(s.arrived, Gone(s));
      match l {
        case TakeEtl =>
          var file := s.etlQueue[0];
          assert file in s.etlQueue;
          AddSortFile(file);
        case ConvertFail(f) => RemoveSortFile(f);
        case ReadFail(f) => RemoveSortFile(f);
        case UnmarshalFail(f, _) => RemoveSortFile(f);
        case Release(f) =>
          var first := IsFirst(f);
          if first {
            RemoveSortFile(f);
          }
        case _ =>
      }
    }

    /** The calls made over a whole run keep the object equal to the pipeline's list. */
    method Replay(c: Config, start: State, ls: seq<Label>) returns (end: State)
      requires Inv(c, start) && Valid(c, start, ls) && files == start.sortList
      modifies this
      ensures end == Exec(c, start, ls) && files == end.sortList
      ensures files == Without(end.arrived, Gone(end)) && Distinct(files)
    {
      hide Enabled, Next, Without, Gone, Bounds, ConverterSide, LoaderSide, ScannerSide;
      end := start;
      var i := 0;
      assert ls[0..] == ls;
      while i < |ls|
        invariant i <= |ls|
        invariant Inv(c, end) && Valid(c, end, ls[i..]) && files == end.sortList
        invariant Exec(c, end, ls[i..]) == Exec(c, start, ls)
      {
        assert ls[i..][0] == ls[i] && ls[i..][1..] == ls[i + 1..];
        StepInv(c, end, ls[i]);
        Perform(c, end, ls[i]);
        end := Next(c, end, ls[i]);
        i := i + 1;
      }
      ListIsDistinct(c, end);
    }
  }

  lemma ListIsDistinct(c: Config, s: State)
    requires Inv(c, s)
    ensures Distinct(s.sortList)
  {
    WithoutMembers(s.arrived, Gone(s));
  }
}
