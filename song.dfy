/** The shape of one row of the songs table (`Song` in process/song.py). */
module Songs {

  /** A scraped song. Every attribute is a string: where the CSV reader would
      give a missing value (an empty field, `NA`, `null`, ...), the model
      takes the text as a plain string instead. */
  datatype Song = Song(
    artist: string,
    songTitle: string,
    songPath: string,
    year: string,
    albumTitle: string,
    albumPath: string,
    duration: string)
}
