/** The library database: the stored `ZimFile` records by primary key. */
module Database {
  import opened ZimFiles

  class Realm {
    var objects: map<string, ZimFile>

    /** Realm keeps one object per primary key, under that key. */
    ghost predicate Valid()
      reads this
    {
      KeyedByPrimaryKey(objects)
    }

    constructor (objects: map<string, ZimFile>)
      requires KeyedByPrimaryKey(objects)
      ensures Valid() && this.objects == objects
    {
      this.objects := objects;
    }
  }
}
