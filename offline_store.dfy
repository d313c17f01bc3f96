/** The two directories flush works on: the offline cache folder and the history
    folder, each a set of file names. */
module OfflineStore {
  import opened FlushOutcomes

  class OfflineCache {
    var cache: set<string>
    var history: set<string>

    constructor (cache: set<string>, history: set<string>)
      ensures this.cache == cache && this.history == history
    {
      this.cache := cache;
      this.history := history;
    }

    function Contents(): Dirs
      reads this
    {
      FlushOutcomes.Dirs(cache, history)
    }

    /** Writing an entry to a cache file (the file is created or replaced). */
    method Write(name: string)
      modifies this
      ensures cache == old(cache) + {name} && history == old(history)
    {
      cache := cache + {name};
    }

    /** File.renameTo from the cache folder to `dest` in the history folder: it
        succeeds exactly when the source file exists, replacing any file `dest`. */
    method Rename(name: string, dest: string) returns (ok: bool)
      modifies this
      ensures ok <==> name in old(cache)
      ensures ok ==> cache == old(cache) - {name} && history == old(history) + {dest}
      ensures !ok ==> cache == old(cache) && history == old(history)
    {
      ok := name in cache;
      if ok {
        cache := cache - {name};
        history := history + {dest};
      }
    }
  }
}
