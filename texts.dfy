/** The reading material shared by every drill (a `ReadingText` record). */
module Texts {

  datatype Option<T> = None | Some(value: T)

  datatype Category = Fiction | NonFiction | Drill

  /** A text to read. Strings are sequences of UTF-16 code units, one `char` each;
      `chunks` is the optional hand-made segmentation of `content`. */
  datatype ReadingText = ReadingText(
    id: string,
    title: string,
    category: Category,
    content: string,
    chunks: Option<seq<string>>,
    wordCount: int)
}
