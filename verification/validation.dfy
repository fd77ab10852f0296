/** `validateFiles`: the whole-batch checks (single-file mode, file
    count cap) and then the per-item type and size checks. */
module Validation {
  import opened Results
  import opened DropErrors
  import opened Records

  /** The outcome: accepted items in input order, and the errors, each of
      which the manager hands to its error handler exactly once. */
  datatype Validation<T> = Validation(valid: seq<T>, errors: seq<DropError>)

  /** The intl message for an error kind and file name ("" for the
      whole-batch errors); the texts themselves are opaque. */
  type Formatter = (DropErrorType, string) -> string

  /** `maxFiles &&`: `undefined` and 0 both mean "no cap". */
  predicate CapsFiles(cfg: Config) {
    cfg.maxFiles.Some? && cfg.maxFiles.value != 0
  }

  /** `size * 10^-6 > maxFileSizeMb`, with exact arithmetic; an undefined
      size compares as `NaN` and is never too large. */
  predicate OverSize(size: Option<int>, maxFileSizeMb: real) {
    size.Some? && size.value as real / 1000000.0 > maxFileSizeMb
  }

  /** The per-item check: the type is checked first, so a file of the wrong
      type is INVALID_FILE even when it is also too large. */
  function ItemError(cfg: Config, d: Descriptor): (r: Option<DropErrorType>)
    ensures d.mimeType !in cfg.mimeTypes ==> r == Some(InvalidFile)
    ensures d.mimeType in cfg.mimeTypes ==> (r == Some(OverSizeLimit) <==> OverSize(d.size, cfg.maxFileSizeMb))
    ensures r.None? <==> d.mimeType in cfg.mimeTypes && !OverSize(d.size, cfg.maxFileSizeMb)
  {
    if d.mimeType !in cfg.mimeTypes then Some(InvalidFile)
    else if OverSize(d.size, cfg.maxFileSizeMb) then Some(OverSizeLimit)
    else None
  }

  /** The `forEach` over the batch. */
  function CheckEach<T>(cfg: Config, items: seq<T>, describe: T -> Descriptor, fmt: Formatter): (r: Validation<T>)
    ensures |r.valid| + |r.errors| == |items|
    ensures forall i :: 0 <= i < |r.valid| ==> r.valid[i] in items && ItemError(cfg, describe(r.valid[i])).None?
    ensures forall i :: 0 <= i < |r.errors| ==> r.errors[i].kind in {InvalidFile, OverSizeLimit}
    decreases |items|
  {
    if |items| == 0 then Validation([], [])
    else
      var r := CheckEach(cfg, items[..|items| - 1], describe, fmt);
      var last := items[|items| - 1];
      var d := describe(last);
      match ItemError(cfg, d)
      case None => Validation(r.valid + [last], r.errors)
      case Some(k) => Validation(r.valid, r.errors + [DropError(k, fmt(k, d.name))])
  }

  /** A single item is either accepted or yields exactly one error of the
      kind the per-item check names. */
  lemma CheckOne<T>(cfg: Config, item: T, describe: T -> Descriptor, fmt: Formatter)
    ensures var d := describe(item);
            CheckEach(cfg, [item], describe, fmt)
            == match ItemError(cfg, d)
               case None => Validation([item], [])
               case Some(k) => Validation([], [DropError(k, fmt(k, d.name))])
  {
    assert [item][..0] == [];
  }

  /** Items are checked independently: checking a concatenation is
      concatenating the checks, so no item affects a sibling and the
      accepted ones keep their input order. */
  lemma {:induction false} CheckEachAppend<T>(cfg: Config, xs: seq<T>, ys: seq<T>, describe: T -> Descriptor, fmt: Formatter)
    ensures CheckEach(cfg, xs + ys, describe, fmt)
         == Validation(CheckEach(cfg, xs, describe, fmt).valid + CheckEach(cfg, ys, describe, fmt).valid,
                       CheckEach(cfg, xs, describe, fmt).errors + CheckEach(cfg, ys, describe, fmt).errors)
    decreases |ys|
  {
    if |ys| == 0 {
      assert xs + ys == xs;
    } else {
      var ys' := ys[..|ys| - 1];
      CheckEachAppend(cfg, xs, ys', describe, fmt);
      assert (xs + ys)[..|xs + ys| - 1] == xs + ys';
      assert (xs + ys)[|xs + ys| - 1] == ys[|ys| - 1];
      var a := CheckEach(cfg, xs, describe, fmt);
      var b := CheckEach(cfg, ys', describe, fmt);
      var d := describe(ys[|ys| - 1]);
      match ItemError(cfg, d) {
        case None =>
          assert a.valid + b.valid + [ys[|ys| - 1]] == a.valid + (b.valid + [ys[|ys| - 1]]);
        case Some(k) =>
          assert a.errors + b.errors + [DropError(k, fmt(k, d.name))] == a.errors + (b.errors + [DropError(k, fmt(k, d.name))]);
      }
    }
  }

  /** `validateFiles(filesInput)` against a list that already holds
      `current` files. */
  function ValidateFiles<T>(cfg: Config, current: nat, items: seq<T>, describe: T -> Descriptor, fmt: Formatter)
    : (r: Validation<T>)
    ensures !cfg.multiple && |items| > 1 ==>
              r.valid == [] && r.errors == [DropError(MultipleNotAllowed, fmt(MultipleNotAllowed, ""))]
    ensures (cfg.multiple || |items| <= 1) && CapsFiles(cfg)
              && (|items| > cfg.maxFiles.value || |items| + current > cfg.maxFiles.value) ==>
              r.valid == [] && r.errors == [DropError(MaxFilesNumber, fmt(MaxFilesNumber, ""))]
    ensures (cfg.multiple || |items| <= 1)
              && !(CapsFiles(cfg) && (|items| > cfg.maxFiles.value || |items| + current > cfg.maxFiles.value)) ==>
              r == CheckEach(cfg, items, describe, fmt) && |r.valid| + |r.errors| == |items|
  {
    if !cfg.multiple && |items| > 1 then
      Validation([], [DropError(MultipleNotAllowed, fmt(MultipleNotAllowed, ""))])
    else if CapsFiles(cfg) && (|items| > cfg.maxFiles.value || |items| + current > cfg.maxFiles.value) then
      Validation([], [DropError(MaxFilesNumber, fmt(MaxFilesNumber, ""))])
    else CheckEach(cfg, items, describe, fmt)
  }

  /** A rejected batch yields exactly one error, of a whole-batch kind, and
      accepts nothing; a batch that is not rejected as a whole never yields
      a whole-batch error. */
  lemma WholeBatchRejection<T>(cfg: Config, current: nat, items: seq<T>, describe: T -> Descriptor, fmt: Formatter)
    ensures var r := ValidateFiles(cfg, current, items, describe, fmt);
            (exists i :: 0 <= i < |r.errors| && r.errors[i].kind in {MultipleNotAllowed, MaxFilesNumber})
            <==> (r.valid == [] && |r.errors| == 1 && r.errors[0].kind in {MultipleNotAllowed, MaxFilesNumber})
  {
  }

  /** The scenario of a 2 MB PNG against a 1 MB limit: one
      OVER_SIZE_LIMIT error and nothing accepted. */
  lemma OverSizeScenario(fmt: Formatter)
    ensures var cfg := Config(["image/png"], true, 1.0, None, false, false);
            var png := RawFile("big.png", 2000000, "image/png");
            ValidateFiles(cfg, 0, [png], DescribeRaw, fmt)
            == Validation([], [DropError(OverSizeLimit, fmt(OverSizeLimit, "big.png"))])
  {
    var cfg := Config(["image/png"], true, 1.0, None, false, false);
    var png := RawFile("big.png", 2000000, "image/png");
    CheckOne(cfg, png, DescribeRaw, fmt);
  }
}
