/**
 The text of an index line, field by field, and what is left of it when it is cut or glued to another.
*/
module IndexText {
  import opened Types
  import opened Mirror

  predicate IsRegistered(field: string) {
    field == "sha256" || field == "sha384" || field == "sha512"
  }

  function NameOfAlgorithm(alg: Algorithm): string {
    match alg
    case SHA256 => "sha256"
    case SHA384 => "sha384"
    case SHA512 => "sha512"
    case Unregistered(name) => name
  }

  function FileName(d: Digest): string {
    NameOfAlgorithm(d.alg) + "-" + d.encoded
  }

  /** The fields of a line behind the name of the data file. */
  function AlgorithmFields(algs: seq<Algorithm>): seq<string> {
    seq(|algs|, i requires 0 <= i < |algs| => NameOfAlgorithm(algs[i]))
  }

  /** How many fields a reader gets through, one registered algorithm after the other. */
  function Readable(fields: seq<string>): nat {
    if fields == [] || !IsRegistered(fields[0]) then 0 else 1 + Readable(fields[1..])
  }

  ghost predicate AllRegistered(algs: seq<Algorithm>) {
    forall i | 0 <= i < |algs| :: IsRegistered(NameOfAlgorithm(algs[i]))
  }

  /** A line that is cut behind its first k algorithm fields and a part of the next one. */
  function CutFields(algs: seq<Algorithm>, k: nat, part: string): seq<string>
    requires k < |algs|
  {
    AlgorithmFields(algs[..k]) + [part]
  }

  /** What is kept of the cut line: the algorithms that are whole, the last one perhaps just so. */
  function TornAt(record: Record, k: nat, part: string): Torn
    requires k < |record.algs|
  {
    if part == NameOfAlgorithm(record.algs[k]) then Torn(record.(algs := record.algs[..k + 1]), true)
    else Torn(record.(algs := record.algs[..k]), false)
  }

  lemma {:induction false} ReadableUpTo(algs: seq<Algorithm>, rest: seq<string>)
    requires AllRegistered(algs)
    ensures Readable(AlgorithmFields(algs) + rest) == |algs| + Readable(rest)
    decreases |algs|
  {
    var fields := AlgorithmFields(algs) + rest;
    if algs == [] {
      assert fields == rest;
    } else {
      assert fields[1..] == AlgorithmFields(algs[1..]) + rest;
      assert IsRegistered(NameOfAlgorithm(algs[0]));
      ReadableUpTo(algs[1..], rest);
    }
  }

  lemma LongerIsNotRegistered(part: string, next: string)
    requires |next| >= 7
    ensures !IsRegistered(part + next)
  {
    assert |part + next| > 6;
  }

  lemma PartIsNotRegistered(part: string, field: string)
    requires IsRegistered(field) && part <= field && part != field
    ensures !IsRegistered(part)
  {
    assert |part| < 6;
  }

  /**
   A cut line at the end of the file: the reader gets through the algorithms that are kept of it, and to the
   end of the line exactly if it reads as a whole one.
  */
  lemma ReadsAsKept(record: Record, k: nat, part: string)
    requires k < |record.algs| && AllRegistered(record.algs) && part <= NameOfAlgorithm(record.algs[k])
    ensures var line := TornAt(record, k, part).Read();
            && Readable(CutFields(record.algs, k, part)) == |line.record.algs|
            && line.record.algs <= record.algs && line.record.file == record.file
            && (line.Whole? <==> Readable(CutFields(record.algs, k, part)) == |CutFields(record.algs, k, part)|)
  {
    ReadableUpTo(record.algs[..k], [part]);
    assert IsRegistered(NameOfAlgorithm(record.algs[k]));
    if part != NameOfAlgorithm(record.algs[k]) {
      PartIsNotRegistered(part, NameOfAlgorithm(record.algs[k]));
    }
    assert [part][1..] == [];
  }

  /** With another line glued to it, the reader gets through what is kept of a glued one, and no further. */
  lemma GluesAsKept(record: Record, k: nat, part: string, next: Digest, rest: seq<string>)
    requires k < |record.algs| && AllRegistered(record.algs) && part <= NameOfAlgorithm(record.algs[k])
    requires IsRegistered(NameOfAlgorithm(next.alg))
    ensures var line := TornAt(record, k, part).Glued();
            && line.Garbled? && line.record.file == record.file && line.record.algs <= record.algs
            && Readable(AlgorithmFields(record.algs[..k]) + ([part + FileName(next)] + rest)) == |line.record.algs|
  {
    LongerIsNotRegistered(part, FileName(next));
    ReadableUpTo(record.algs[..k], [part + FileName(next)] + rest);
    assert record.algs[..k + 1][..k] == record.algs[..k];
  }

  /** What is kept is a cut of the record. */
  lemma KeptIsCut(record: Record, k: nat, part: string)
    requires k < |record.algs|
    ensures CutOf(record, TornAt(record, k, part))
  {
  }
}
