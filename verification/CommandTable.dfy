/** The commands of the host tool that are not forward commands, by their codes. */
module CommandTable {
  import opened CommandLine

  const OTHERS: map<string, nat> := map[
    "version" := 19, "help" := 0, "discover" := 4, "start" := 17, "kill" := 16, "keygen" := 21,
    "list targets" := 5, "checkserver" := 13, "checkdevice" := 14, "wait" := 15, "tconn" := 7, "any" := 6,
    "shell" := 1001, "target boot" := 1003, "target mount" := 1002, "smode" := 1007, "tmode" := 1004,
    "bugreport" := 1011, "hilog" := 1005, "file send" := 3000, "file recv" := 3008, "install" := 3500,
    "uninstall" := 3505, "sideload" := 3005, "jpid" := 1008, "track-jpid" := 1009, "alive" := 11,
    "update" := 4000, "flash" := 4001, "erase" := 4006, "format" := 4007, "reconnect" := 18,
    "spawn-sub" := 6000, "killall-sub" := 6000
  ]

  /** split_opt_and_cmd with the tool's own table: no token is lost or reordered. */
  method SplitLine(input: seq<string>) returns (p: Parsed)
    ensures p.options + p.parameters == input
    ensures p == Parse(OTHERS, input) <==> !Overridden(OTHERS, input)
    ensures SpaceFree(input) ==> p == Parse(OTHERS, input)
  {
    hide Parse, SpaceFree, Overridden;
    p := SplitOptAndCmd(OTHERS, input);
  }
}
