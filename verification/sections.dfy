/** The section markers the suggestion text is organised by, shared by the quality
    gate, the Hugging Face post-processing and the browser renderer. The emoji are
    part of each marker and are otherwise treated as opaque characters. */
module Sections {

  /** "✨ STRENGTHS" */
  const Strengths: string := "\U{2728} STRENGTHS"

  /** "🔍 IMPROVEMENTS" */
  const Improvements: string := "\U{1F50D} IMPROVEMENTS"

  /** "💡 PRO TIP" */
  const ProTip: string := "\U{1F4A1} PRO TIP"

  /** The bullet character "•". */
  const Bullet: char := '\U{2022}'
}
