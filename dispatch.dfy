/**
 * `PrintProjectStructure`: picks the rendering for the output format and says where the
 * result is saved. The absolute root path is an input (resolving it is left to the caller).
 */
module Dispatch {
  import opened Wrappers
  import opened Paths
  import opened FileSystem
  import opened Policy
  import opened Builder
  import opened TextRender

  /** What a run renders: the text listing (returned string and console stream), or the tree
      handed to the JSON, XML or YAML encoder. */
  datatype Rendering =
    | TextListing(listing: TextResult)
    | Structured(format: string, tree: Option<Node>)

  /** The result of one run: an unsupported format prints a message and stops; otherwise the
      rendering is printed and, when an output file was named, saved there. */
  datatype Outcome =
    | Unsupported(message: string)
    | Printed(rendering: Rendering, savedTo: Option<string>)

  predicate IsStructuredFormat(format: string) {
    format == "json" || format == "xml" || format == "yaml"
  }

  method PrintProjectStructure(opts: Options, absRoot: string, root: Entry, format: string, outputFile: string)
    returns (outcome: Outcome)
    ensures outcome.Unsupported? <==> format != "text" && !IsStructuredFormat(format)
    ensures outcome.Unsupported? ==> outcome.message == "Unsupported format: " + format + "\n"
    ensures outcome.Printed? ==> (outcome.savedTo.Some? <==> outputFile != "")
    ensures outcome.Printed? && outcome.savedTo.Some? ==> outcome.savedTo.value == outputFile
    ensures format == "text" ==> outcome.Printed? && outcome.rendering == TextListing(TextOutput(opts, absRoot, root))
    ensures IsStructuredFormat(format) ==>
      outcome.Printed? && outcome.rendering == Structured(format, BuildTree(opts, root, Base(absRoot), 0))
  {
    var rendering: Rendering;
    if format == "text" {
      var output, console := GetTreeOutput(opts, absRoot, root);
      rendering := TextListing(TextResult(output, console));
    } else {
      var tree := BuildTree(opts, root, Base(absRoot), 0);
      if IsStructuredFormat(format) {
        rendering := Structured(format, tree);
      } else {
        return Unsupported("Unsupported format: " + format + "\n");
      }
    }
    var savedTo := if outputFile != "" then Some(outputFile) else None;
    outcome := Printed(rendering, savedTo);
  }
}
