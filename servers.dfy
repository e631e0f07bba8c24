/** Servers.cs: the streaming servers, from the comma-separated setting. */
module ServerStore {
  import opened Text

  /** ServerInfo: a server name and its running average rate in KB/s. */
  datatype ServerInfo = ServerInfo(server: string, avgKBytesSec: int)

  class Servers {
    var serverList: seq<ServerInfo>

    /** One server per comma-separated piece, in order, each with rate 0. */
    constructor (strServers: string)
      ensures |serverList| == |Split(strServers, ',')| >= 1
      ensures forall i :: 0 <= i < |serverList| ==>
                serverList[i] == ServerInfo(Split(strServers, ',')[i], 0)
    {
      var list: seq<ServerInfo> := [];
      var serverArray := Split(strServers, ',');
      for n := 0 to |serverArray|
        invariant |list| == n
        invariant forall i :: 0 <= i < n ==> list[i] == ServerInfo(serverArray[i], 0)
      {
        list := list + [ServerInfo(serverArray[n], 0)];
      }
      serverList := list;
    }

    /** `GetServerList`: the stored list itself. */
    function GetServerList(): (list: seq<ServerInfo>)
      reads this
      ensures list == serverList
    {
      serverList
    }
  }

  /** The server names a setting yields: the comma-separated pieces, so the
      pieces joined back with commas give the setting again. */
  function ServerNames(strServers: string): (names: seq<string>)
    ensures |names| >= 1
    ensures Join(names, ',') == strServers
    ensures forall n :: n in names ==> ',' !in n
  {
    JoinSplit(strServers, ',');
    Split(strServers, ',')
  }

  /** A setting without a comma, the empty one included, is a single server. */
  lemma SingleServer(strServers: string)
    requires ',' !in strServers
    ensures ServerNames(strServers) == [strServers]
  {
    SplitFree(strServers, ',');
  }
}
