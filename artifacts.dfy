/**
 * File names of the per-order artifacts and of the archive, as the task
 * script spells them with f-strings, and the directory join they go through.
 */
module Artifacts {

  /** Working directory for the transient per-order files. */
  const PartsDir: string := "output/robot_parts"
  /** Directory that receives the final archive. */
  const OutputDir: string := "output"

  predicate StartsWith(s: string, prefix: string) {
    |prefix| <= |s| && s[..|prefix|] == prefix
  }

  /** Python's `str.endswith` for a single suffix (case-sensitive). */
  predicate EndsWith(s: string, suffix: string) {
    |suffix| <= |s| && s[|s| - |suffix|..] == suffix
  }

  /** `fs.join_path(dir, name)` for a bare file name, as listed in a directory. */
  function JoinPath(dir: string, name: string): (p: string)
    ensures StartsWith(p, dir + "/") && EndsWith(p, name)
    ensures |p| == |dir| + 1 + |name|
    ensures Key(dir + "/", "", p) == name
  {
    dir + "/" + name
  }

  /** The part of `name` between a known prefix and a known suffix. */
  function Key(prefix: string, suffix: string, name: string): string
    requires |prefix| + |suffix| <= |name|
  {
    name[|prefix|..|name| - |suffix|]
  }

  /**
   * The four kinds of file a pass of the pipeline writes to the working
   * directory: the preview is keyed by the client order number, the others
   * by the server-assigned order id.
   */
  datatype Artifact =
    | RobotImage(orderNumber: string)
    | ReceiptImage(orderId: string)
    | CombinedImage(orderId: string)
    | OrderPdf(orderId: string)
  {
    function Prefix(): string {
      match this
      case RobotImage(_) => "robot_"
      case ReceiptImage(_) => "receipt_"
      case CombinedImage(_) => "combined_"
      case OrderPdf(_) => "order_"
    }

    function Suffix(): string {
      if OrderPdf? then ".pdf" else ".png"
    }

    function KeyOf(): string {
      match this
      case RobotImage(n) => n
      case ReceiptImage(id) => id
      case CombinedImage(id) => id
      case OrderPdf(id) => id
    }

    /** The f-string name: `robot_{n}.png`, `receipt_{id}.png`, `combined_{id}.png`, `order_{id}.pdf`. */
    function FileName(): (name: string)
      ensures StartsWith(name, Prefix()) && EndsWith(name, Suffix())
      ensures |name| == |Prefix()| + |KeyOf()| + |Suffix()|
    {
      Prefix() + KeyOf() + Suffix()
    }
  }

  /** `robot_orders_{timestamp}.zip`, joined onto the output directory. */
  function ArchivePath(timestamp: string): (p: string)
    ensures StartsWith(p, OutputDir + "/robot_orders_") && EndsWith(p, ".zip")
    ensures |p| == |OutputDir + "/robot_orders_"| + |timestamp| + |".zip"|
    ensures Key(OutputDir + "/robot_orders_", ".zip", p) == timestamp
  {
    var p := JoinPath(OutputDir, "robot_orders_" + timestamp + ".zip");
    assert p == (OutputDir + "/robot_orders_") + timestamp + ".zip";
    p
  }

  /** The key can be read back out of a file name: names of one kind never collide for distinct keys. */
  lemma KeyOfFileName(a: Artifact)
    ensures Key(a.Prefix(), a.Suffix(), a.FileName()) == a.KeyOf()
  {
    var name := a.FileName();
    assert name == a.Prefix() + a.KeyOf() + a.Suffix();
    assert name[|a.Prefix()|..|name| - |a.Suffix()|] == a.KeyOf();
  }

  /** Two artifacts share a file name only when they are the same artifact. */
  lemma FileNameInjective(a: Artifact, b: Artifact)
    requires a.FileName() == b.FileName()
    ensures a == b
  {
    var n := a.FileName();
    assert n[..|a.Prefix()|] == a.Prefix();
    assert n[..|b.Prefix()|] == b.Prefix();
    assert n[0] == a.Prefix()[0] == b.Prefix()[0];
    assert n[1] == a.Prefix()[1] == b.Prefix()[1];
    SameKindFromLeadingChars(a, b);
    KeyOfFileName(a);
    KeyOfFileName(b);
  }

  /** The first two characters of the prefixes tell the four kinds apart. */
  lemma SameKindFromLeadingChars(a: Artifact, b: Artifact)
    requires a.Prefix()[0] == b.Prefix()[0] && a.Prefix()[1] == b.Prefix()[1]
    ensures a.Prefix() == b.Prefix() && a.Suffix() == b.Suffix()
    ensures a.RobotImage? == b.RobotImage? && a.ReceiptImage? == b.ReceiptImage?
    ensures a.CombinedImage? == b.CombinedImage? && a.OrderPdf? == b.OrderPdf?
  {
  }

  /** Only the order documents carry the `.pdf` suffix, whatever their keys. */
  lemma PdfSuffixIffOrderPdf(a: Artifact)
    ensures EndsWith(a.FileName(), ".pdf") <==> a.OrderPdf?
  {
    var n := a.FileName();
    if !a.OrderPdf? {
      assert n[|n| - 3] == 'p' && n[|n| - 2] == 'n';
    }
  }
}
