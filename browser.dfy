/**
  * The two pieces of browser state the settings hooks touch: the class list of the document's
  * root element and `localStorage`, whose writes may throw (storage full or disabled).
  */
module Browser {
  class Document {
    var classList: set<string>
    var storage: map<string, string>
    var storageWritable: bool

    constructor(classes: set<string>, stored: map<string, string>, writable: bool)
      ensures classList == classes && storage == stored && storageWritable == writable
    {
      classList := classes;
      storage := stored;
      storageWritable := writable;
    }

    /** `classList.add(c)`. */
    method AddClass(c: string)
      modifies this
      ensures classList == old(classList) + {c}
      ensures storage == old(storage) && storageWritable == old(storageWritable)
    {
      classList := classList + {c};
    }

    /** `classList.remove(c)`. */
    method RemoveClass(c: string)
      modifies this
      ensures classList == old(classList) - {c}
      ensures storage == old(storage) && storageWritable == old(storageWritable)
    {
      classList := classList - {c};
    }

    /** `localStorage.setItem(key, value)`; `ok` is false where it throws, and nothing is stored then. */
    method SetItem(key: string, value: string) returns (ok: bool)
      modifies this
      ensures ok == old(storageWritable)
      ensures storage == if ok then old(storage)[key := value] else old(storage)
      ensures classList == old(classList) && storageWritable == old(storageWritable)
    {
      ok := storageWritable;
      if ok {
        storage := storage[key := value];
      }
    }
  }
}
