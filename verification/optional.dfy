/** The conventional Some/None datatype, used for optional captions, topic
    identifiers and the "no network error seen yet" state of the retry loop. */
module Optional {

  datatype Option<+T> = None | Some(value: T)
}
