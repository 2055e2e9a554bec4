/** The structured verdict of an analysis and the enumerations stored with reviews. */
module ReviewTypes {
  import opened Wrappers

  /** Lifecycle of a Review record. */
  datatype ReviewStatus = Pending | Processing | Completed | Failed

  /** Category of a finding (`type` in the source). */
  datatype CommentType = Security | Performance | Style | Logic | BestPractice

  datatype Severity = Low | Medium | High

  datatype AnalysisComment = AnalysisComment(
    content: string,
    category: CommentType,
    severity: Severity,
    filePath: Option<string>,
    lineNumber: Option<int>)

  /** What the orchestrator reads from an analysis. */
  datatype AnalysisResult = AnalysisResult(summary: string, score: int, comments: seq<AnalysisComment>)
}
